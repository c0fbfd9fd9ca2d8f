# Verified model of nimburion's queue, lock, scheduler, cache and reliability core

This project models the parts of nimburion in which several goroutines, processes or stores have to agree, and
proves what the code promises about them. Time is a natural number, tokens are fresh values, and every Lua script,
SQL statement, mutex section and channel operation is one atomic step that any number of clients may interleave.
Whatever the code asks of the outside (clock readings, random tokens, handler results, answers of remote services)
is a parameter, so each statement holds for all of them.

Where the source updates an object in place, the model is a class whose methods are proved against specification
functions on values; the theorems about all runs are lemmas over those functions, and the mutex sections of the
classes are proved to be steps of the runs.

- **Leased jobs** (`RedisQueue`, `RedisRuns`, `RedisPolls`, `RedisBackends`, `RedisSteps`, `Worker`, `RuntimeRuns`,
  `RuntimeBackends`): jobs are conserved over every run of the Redis backend, at most one outcome per lease takes
  effect, nothing is handed out early and no lease expires early; deliveries of the transport backend are never
  forgotten, completed once, and succeed exactly after an Ack or an enqueued copy.
- **Locks and scheduling** (`TtlLock`, `LockProviders`, `Dispatch`, `TaskLoop`): both lock stores simulate one
  abstract lock with mutual exclusion; dispatch sections never overlap exactly under the condition given.
- **Cron** (`CronField`, `CronText`, `CronSearch`, `Calendar`): which texts are accepted and what they denote, the
  next run as the first minute that meets the schedule as written, and exactly when the bounded search fails in UTC.
- **Cache, audit, nonces** (`SingleFlight`, `RequestGroups`, `CacheKey`, `AuditChain`, `Nonce`).
- **Breaker, retry, versions, codec** (`Breaker`, `RetryPolicy`, `RetryLoop`, `SemVer`, `SemVerOrder`, `JobCodec`).
- `Text`, `Bags` and `Jobs` hold shared definitions.

`dafny verify dfyconfig.toml` checks everything.

## Where the code differs from what one would expect

The model follows the code. Each of these is a theorem of the project, together with the exact condition:

- A cron step near the largest 64-bit integer wraps the loop counter, and the field selects extra values:
  "5/9223372036854775807" selects 1, 3 and 5 (`CronField.HugeStepField`). A segment is affected exactly under
  `CronField.SegmentValuesExact`, a field exactly under `CronField.AsIntendedExactly`.
- A weekday range that ends in 7, such as "1-7", is refused, and "0-7" selects Sunday alone, since the end is folded to
  0 before the range is checked (`CronText.RangeToSevenExactly`).
- A schedule that allows only 29 February fails around a century that is not a leap year
  (`CronSearch.LeapDayTextFails`, `CronSearch.SearchFailsExactly`).
- A delayed payload identical to one already waiting is merged into it (`RedisQueue.ZaddCounts`). Over all runs the
  merged copies are the only ones missing from the ledger (`RedisRuns.JobsConserved`), and there are none when no id
  is enqueued twice (`RedisRuns.OnePlacePerJob`).
- Nonces protect against replay exactly when they are required and their lifetime exceeds twice the skew plus the time
  a request spends between its skew check and its turn in the store; the defaults (10 and 5 minutes) do not meet that
  (`Nonce.ReplayFreeExactly`, `Nonce.DefaultsAllowReplay`).
- A missing optional cache key rule can be imitated by the path. For distinct rule names without ':' or '=' the key
  tells all requests apart exactly when there are no rules or the first one is required
  (`CacheKey.OptionalRulesExactly`).
- A handler that always fails is started at every attempt exactly when each attempt beyond the breaker's limit comes
  later than the reset time (`RetryLoop.StartedEveryTimeExactly`). With default settings the sixth and last attempt
  follows 16 seconds after the fifth, and starts the handler only if it is more than 14 seconds late
  (`RetryLoop.DefaultsSkipTheSixth`).
- The comment on the half-open breaker speaks of limited requests; for every n a run is half-open with n calls in flight
  (`Breaker.HalfOpenIsUnlimited`).
- SemVer: a version compares as equal to a different one exactly when an identifier is zero or a hyphen before digits
  that fit 64 bits (`SemVerOrder.TwinsExactly`), and then 0 is not transitive (`SemVerOrder.ZeroIsNotTransitive`). The
  order is that of section 11 exactly for versions without such hyphenated numbers and without numbers beyond 64 bits
  (`SemVerOrder.AgreesExactly`). Leading zeros are refused exactly while the value fits 64 bits
  (`SemVer.LeadingZeroRefusedExactly`).

## Model

| member | source | states |
|---|---|---|
| `RedisQueue.RpushCounts` | pkg/jobs/redis_backend.go:193-194 | an RPUSH adds exactly one job to the multiset of held job ids |
| `RedisQueue.ZaddCounts` | pkg/jobs/redis_backend.go:195-200 | a ZADD adds one job unless the same payload already waits in that queue, then none |
| `RedisQueue.TransferShape` | pkg/jobs/redis_backend.go:35-39 | the transfer loop appends the due payloads to the ready list in order, removes exactly them from the zset and touches nothing else |
| `RedisQueue.TransferCounts` | pkg/jobs/redis_backend.go:35-39 | the transfer loop neither creates nor loses jobs |
| `RedisQueue.ReserveLine` | pkg/jobs/redis_backend.go:26-48 | the script leases the head of the line, ready payloads before due ones, and leaves the rest in order |
| `RedisQueue.ReserveLeavesOthers` | pkg/jobs/redis_backend.go:26-48 | it takes exactly the due payloads out of the zset and touches no other queue |
| `RedisQueue.ReserveShape` | pkg/jobs/redis_backend.go:26-48 | the reserve script answers nil exactly when nothing is ready or due, and otherwise leases the oldest ready or first due payload |
| `RedisQueue.ReserveCounts` | pkg/jobs/redis_backend.go:26-48 | with a fresh token the reserve script keeps the multiset of job ids |
| `RedisQueue.TransitionShape` | pkg/jobs/redis_backend.go:59-79 | the transition script's return codes, the lease table after each, and where the next payload goes: the end of the ready list, or the zset under its time |
| `RedisQueue.PutCounts` | pkg/jobs/redis_backend.go:70-77 | putting a payload into the ready list or the zset adds one job, of which a merge takes one away |
| `RedisQueue.TransitionCounts` | pkg/jobs/redis_backend.go:59-79 | a transition that takes effect keeps the multiset of job ids, except for a merge in the target queue |
| `RedisQueue.EnqueueCounts` | pkg/jobs/redis_backend.go:191-200 | Enqueue adds its job, except for a merge with an identical waiting payload |
| `RedisQueue.RenewCounts` | pkg/jobs/redis_backend.go:367 | PEXPIRE keeps the multiset of jobs |
| `RedisRuns.TokensStep` | pkg/jobs/redis_backend.go:50-79 | every command keeps: a used token is live or finished once, and a read lease value is still the stored one |
| `RedisRuns.TimesStep` | pkg/jobs/redis_backend.go:26-79 | every command keeps ready and leased jobs at or after their run-at millisecond |
| `RedisRuns.LedgerStep` | pkg/jobs/redis_backend.go:26-79 | every command keeps every enqueued copy of a job accounted for: held, acknowledged, expired or merged |
| `RedisRuns.Invariants` | pkg/jobs/redis_backend.go:162-416 | the token, time and ledger invariants hold at every moment of every run |
| `RedisRuns.JobsConserved` | pkg/jobs/redis_backend.go:162-527 | over every run, repeated ids included, held plus acknowledged plus expired plus merged jobs are exactly the enqueued ones |
| `RedisRuns.OnePlacePerJob` | pkg/jobs/redis_backend.go:162-416 | when no id is enqueued twice nothing is merged and each job is in exactly one place |
| `RedisRuns.JobsLeaveOnlyByAckOrExpiry` | pkg/jobs/redis_backend.go:211-416 | Reserve and Renew preserve the multiset of job ids, Nack and MoveToDLQ up to a merge |
| `RedisRuns.OnlyAckAndExpiryRemove` | pkg/jobs/redis_backend.go:211-416 | when no id is enqueued twice Nack and MoveToDLQ preserve it as well |
| `RedisRuns.NeverEarly` | pkg/jobs/redis_backend.go:211-302 | no job is handed out before its run-at millisecond |
| `RedisRuns.AtMostOneOutcome` | pkg/jobs/redis_backend.go:578-673 | under any interleaving of reads and transitions at most one of Ack, Nack, MoveToDLQ and expiry takes effect on a lease |
| `RedisRuns.NeverPayloadChanged` | pkg/jobs/redis_backend.go:663-670 | the result -1 of the transition script is unreachable with fresh tokens |
| `RedisRuns.FinishedForever` | pkg/jobs/redis_backend.go:355-375 | a finished lease never comes back, through Renew or otherwise |
| `RedisRuns.NoEarlyExpiry` | pkg/jobs/redis_backend.go:211-375 | no lease expires before the time its Reserve or latest Renew gave it is over |
| `RedisBackends.RangeByScore` | pkg/jobs/redis_backend.go:35 | the due members with the lowest scores, in order, at most a batch |
| `RedisBackends.RedisBackend.ReserveScript` | pkg/jobs/redis_backend.go:26-48 | the in-place script has the effect of the specification function |
| `RedisBackends.RedisBackend.GetAndDelete` | pkg/jobs/redis_backend.go:50-57 | returns the lease value and deletes the key |
| `RedisBackends.RedisBackend.TransitionScript` | pkg/jobs/redis_backend.go:59-79 | the in-place script has the effect and code of the specification function |
| `RedisBackends.RedisBackend.Enqueue` | pkg/jobs/redis_backend.go:162-206 | refuses a closed backend and an incomplete job; a set run time is kept, so the job waits in the zset under that millisecond or joins the end of its ready list; unset times get the clock reading |
| `RedisBackends.RedisBackend.Reserve` | pkg/jobs/redis_backend.go:211-304 | hands out the first usable payload in line, under a key that lives for the lease time (30 seconds by default) up to a millisecond, drops only unusable payloads on the way and keeps every other job |
| `RedisBackends.RedisBackend.PollUntilLeased` | pkg/jobs/redis_backend.go:230-303 | the loop ends with the first poll that takes a job, or with none when the context is done |
| `RedisBackends.RedisBackend.PollOnce` | pkg/jobs/redis_backend.go:235-293 | one round of the loop: the script, then the Ack that drops an unusable payload |
| `RedisPolls.DecodedExactly` | pkg/jobs/redis_backend.go:261-293 | a stored valid job is read back unchanged, one without a queue gets the queue it was found in, and nothing else is handed out |
| `RedisPolls.DeadlineLasts` | pkg/jobs/redis_backend.go:222-228 | the key lives for the requested time, or 30 seconds, rounded down to milliseconds and at least one |
| `RedisPolls.PollTakesHead` | pkg/jobs/redis_backend.go:235-300 | a poll takes the head of the line and leases the job it stands for, if any |
| `RedisPolls.PollLoses` | pkg/jobs/redis_backend.go:238-293 | a poll with a fresh token loses an unusable head and nothing else |
| `RedisPolls.VainPollsLose` | pkg/jobs/redis_backend.go:230-293 | any number of polls in vain lose unusable payloads only |
| `RedisPolls.EndInTurn` | pkg/jobs/redis_backend.go:230-303 | the job handed out is the first usable payload of the line the first poll finds |
| `RedisBackends.RedisBackend.Ack` | pkg/jobs/redis_backend.go:307-321 | deletes the lease; acknowledging a missing lease succeeds and changes nothing |
| `RedisBackends.RedisBackend.Nack` | pkg/jobs/redis_backend.go:325-351 | on success the lease is gone and the job queued again with one more attempt, at the requested time and with the failure in its headers; on failure nothing changed, and which error it is |
| `RedisBackends.RedisBackend.MoveToDLQ` | pkg/jobs/redis_backend.go:379-402 | on success the lease is gone and the job is in the dead-letter queue with its original queue recorded |
| `RedisBackends.RedisBackend.Renew` | pkg/jobs/redis_backend.go:355-375 | moves the expiry of an existing lease to the clock reading plus the lease time (30 seconds by default), and nothing else |
| `RedisSteps.PollIsSteps` | pkg/jobs/redis_backend.go:230-303 | a poll of the object is one Reserve of the runs, followed by an Ack when its payload cannot be used |
| `RedisSteps.RenewIsStep` | pkg/jobs/redis_backend.go:355-375 | a renewal of the object is a Renew of the runs |
| `RedisSteps.NackIsStep` | pkg/jobs/redis_backend.go:325-351 | a Nack of the object is a transition of the runs |
| `RedisSteps.MoveToDLQIsStep` | pkg/jobs/redis_backend.go:379-402 | so is a MoveToDLQ |
| `Jobs.RetryOf` | pkg/jobs/redis_backend.go:330-341 | a retried job is the same work with one more attempt, the requested run time or now, and the failure noted in two headers |
| `Jobs.DeadLetterOf` | pkg/jobs/redis_backend.go:384-397 | a dead letter is the same work under the dead-letter queue, with its queue and the failure noted in three headers |
| `RetryPolicy.Decide` | pkg/reliability/retry/retry.go:159-196 | the exact condition for each disposition: delayed retry, quarantine, dead letter, drop |
| `RetryPolicy.ExponentialBackoff` | pkg/reliability/retry/retry.go:199-214 | the loop computes the specified delay without ever exceeding the cap while doubling |
| `RetryPolicy.DoublingIsCapped` | pkg/reliability/retry/retry.go:199-214 | the delay is the doubled initial value capped, except that an odd cap may be reached one nanosecond early |
| `RetryPolicy.BackoffIsCapped` | pkg/reliability/retry/retry.go:199-214 | with an even cap it is exactly the capped power |
| `Worker.RetriedJobUsable` | pkg/jobs/worker.go:348-425 | a nacked job passes validation again exactly when its own attempt limit was not already used up |
| `Worker.WorkerRetriesUsable` | pkg/jobs/worker.go:348-425 | the worker retries only below the limit, so its retried jobs are usable |
| `Worker.HandleFailure` | pkg/jobs/worker.go:348-425 | the terminal call that goes with class, attempts left, sink and dead-letter policy, exactly one unless the sink fails; a retry is due after the backoff; the outcome in the backend and the result |
| `Worker.Settle` | pkg/jobs/worker.go:374-425 | for any disposition one terminal call, none only if the quarantine sink fails, with the matching outcome |
| `Worker.RetryDelay` | pkg/reliability/retry/retry.go:199-214 | the delay before the next attempt doubles with each attempt up to the limit |
| `Worker.Retry` | pkg/jobs/worker.go:376-384 | the retry branch requeues the job with one more attempt, the failure headers and its new run time |
| `Worker.Bury` | pkg/jobs/worker.go:386-417 | the dead-letter branch puts the job with its failure headers into the dead-letter queue |
| `Worker.Process` | pkg/jobs/worker.go:287-334 | an Ack after success, otherwise the calls of handleFailure; a job without a handler is not tried again |
| `RuntimeRuns.UniqueStep` | pkg/jobs/runtime_backend.go:105-433 | every step keeps at most one owner (channel, lease, goroutine) per delivery |
| `RuntimeRuns.UncompletedStep` | pkg/jobs/runtime_backend.go:105-433 | every step keeps owned deliveries uncompleted and completions at most one |
| `RuntimeRuns.SettledStep` | pkg/jobs/runtime_backend.go:168-280 | every step keeps acknowledged and copied deliveries apart, each completed with success or about to be |
| `RuntimeRuns.Invariants` | pkg/jobs/runtime_backend.go:105-433 | ownership, completion, token, success and settlement invariants over every run |
| `RuntimeRuns.CompletedAtMostOnce` | pkg/jobs/runtime_backend.go:48-56 | complete is called at most once per delivery in every interleaving with expiry and Close |
| `RuntimeRuns.SuccessOnlyAfterAckOrCopy` | pkg/jobs/runtime_backend.go:362-383 | the transport callback returns success only after an Ack or an enqueued retry or dead-letter copy |
| `RuntimeRuns.SettledMeansSuccess` | pkg/jobs/runtime_backend.go:362-383 | a callback that reads its result reports success exactly when its delivery was acknowledged or copied |
| `RuntimeRuns.NeverAckedAndCopied` | pkg/jobs/runtime_backend.go:168-280 | no delivery is both acknowledged and copied |
| `RuntimeRuns.NeverForgotten` | pkg/jobs/runtime_backend.go:105-433 | at every moment of every run a delivery has its result, or the channel, a lease or a goroutine has still to give it one |
| `RuntimeRuns.NoLeaseAfterClose` | pkg/jobs/runtime_backend.go:291-314 | no lease exists once Close has taken the mutex |
| `RuntimeBackends.Delivery.Complete` | pkg/jobs/runtime_backend.go:48-56 | only the first completion counts |
| `RuntimeBackends.RuntimeBackend.Register` | pkg/jobs/runtime_backend.go:137-164 | a received delivery is leased and waits, or the backend is closed and the callback fails; the mutex section is a step of `RuntimeRuns` |
| `RuntimeBackends.RuntimeBackend.PopLease` | pkg/jobs/runtime_backend.go:395-419 | takes a lease out of the table, with the error cases, so that nobody else holds its delivery; a step of `RuntimeRuns` |
| `RuntimeBackends.RuntimeBackend.Ack` | pkg/jobs/runtime_backend.go:168-175 | Ack of a live lease lets the callback succeed, anything else changes nothing |
| `RuntimeBackends.RuntimeBackend.Nack` | pkg/jobs/runtime_backend.go:178-218 | the callback succeeds exactly when the retry copy was accepted, and the copy has one more attempt |
| `RuntimeBackends.RuntimeBackend.MoveToDLQ` | pkg/jobs/runtime_backend.go:252-280 | the callback succeeds exactly when the dead-letter copy was accepted |
| `RuntimeBackends.RuntimeBackend.Renew` | pkg/jobs/runtime_backend.go:221-249 | moves the expiry of a live lease and nothing else |
| `RuntimeBackends.RuntimeBackend.ExpireLease` | pkg/jobs/runtime_backend.go:421-433 | a lease that is still there fails its callback and is gone; a step of `RuntimeRuns` |
| `RuntimeBackends.RuntimeBackend.Close` | pkg/jobs/runtime_backend.go:291-321 | empties the table and fails every waiting callback; a step of `RuntimeRuns` |
| `TtlLock.Simulates` | pkg/coordination/redis/lock.go:56-68 | each Redis or Postgres step is a step of one abstract TTL lock with the same Acquire and Renew answers |
| `TtlLock.FormsAgree` | pkg/coordination/postgres/lock.go:140-264 | states with the same live locks stay so and answer Acquire and Renew alike in both stores |
| `TtlLock.ProvidersAgree` | pkg/coordination/postgres/lock.go:140-264 | on the same events both providers hold the same live locks and give the same answers |
| `TtlLock.BackedAlways` | pkg/coordination/redis/lock.go:130-232 | in every run an unexpired belief of a client is what the store holds |
| `TtlLock.MutualExclusion` | pkg/coordination/redis/lock.go:130-232 | at every moment of every run at most one token per key is unexpired |
| `TtlLock.SupersededIsPowerless` | pkg/coordination/redis/lock.go:169-232 | a superseded holder can neither extend nor free the new holder's lock |
| `TtlLock.LostForever` | pkg/coordination/redis/lock.go:169-232 | an expired or released token never becomes live again |
| `TtlLock.LostTokenIsPowerless` | pkg/coordination/redis/lock.go:169-232 | from then on every Renew with it is refused and no Renew or Release with it changes any live lock |
| `LockProviders.LockProvider.Acquire` | pkg/coordination/redis/lock.go:130-167 | succeeds exactly when no unexpired entry holds the key; argument errors, the store effect, and a lease whose ExpireAt is at or after the stored expiry |
| `LockProviders.LockProvider.Renew` | pkg/coordination/postgres/lock.go:191-228 | succeeds exactly for the unexpired holder; the store effect, the conflict error, and the update of lease.ExpireAt |
| `LockProviders.LockProvider.Release` | pkg/coordination/postgres/lock.go:231-264 | removes exactly the own entry, which Redis only does while it is unexpired; the conflict error |
| `Dispatch.CallsAlways` | pkg/scheduler/runtime.go:237-335 | in every run tokens are private, the renewal goroutine is gone before Release, and Release is attempted once |
| `Dispatch.ReleaseLastAndOnce` | pkg/scheduler/runtime.go:309-312 | no Renew is possible after Release, and Release is attempted exactly once per finished call |
| `Dispatch.CallCanFinish` | pkg/scheduler/runtime.go:237-335 | at every moment of every run a call can be finished by its own steps alone, and then holds no lock |
| `Dispatch.RenewTickExactly` | pkg/scheduler/runtime.go:337-378 | what a renewal does to the store when request or reply is lost, and when the renewal goroutine goes on |
| `Dispatch.ProtectedAlways` | pkg/scheduler/runtime.go:264-312 | inside its section a call's token is still stored for long enough |
| `Dispatch.SectionsNeverOverlap` | pkg/scheduler/runtime.go:237-378 | with lag plus timeout below the TTL the acquire-to-enqueue sections for one key never overlap, even if every renewal fails |
| `Dispatch.SectionsCanOverlap` | pkg/scheduler/runtime.go:237-378 | otherwise a run with two overlapping sections exists |
| `TaskLoop.RoundsAdvance` | pkg/scheduler/runtime.go:197-235 | each round is due strictly after everything an earlier round did |
| `TaskLoop.LockKeyExactly` | pkg/scheduler/runtime.go:246 | lock keys agree exactly for the same task in the same second, whatever the names contain |
| `TaskLoop.IdempotencyKeyExactly` | pkg/scheduler/runtime.go:288-303 | so do derived idempotency keys; a configured one is used as it is |
| `TaskLoop.TaskNameRecovered` | pkg/scheduler/runtime.go:408-422 | the task name is read back from its lock key exactly when it is not empty |
| `TaskLoop.EpochIs1970` | pkg/scheduler/runtime.go:246 | the second in the key counts from 1 January 1970 |
| `TaskLoop.SlotsStrictlyIncrease` | pkg/scheduler/runtime.go:197-246 | slots and dispatched seconds of one instance strictly increase, so no lock key is used twice |
| `TaskLoop.InstancesShareKeys` | pkg/scheduler/runtime.go:221-303 | instances waiting for the same slot under the skip policy derive the same lock and idempotency key |
| `TaskLoop.RunRound` | pkg/scheduler/runtime.go:201-231 | a round is skipped exactly under the skip policy more than half a second late, fires at the slot otherwise, and at the wake-up time under the fire-once policy when late |
| `TaskLoop.Run` | pkg/scheduler/runtime.go:197-235 | the loop dispatches exactly what its rounds call for and stops at the first round without a next run or with a cancelled wait |
| `TaskLoop.DispatchedExactly` | pkg/scheduler/runtime.go:197-235 | what the loop dispatches are exactly the instants of its rounds |
| `TaskLoop.DispatchedIncreasing` | pkg/scheduler/runtime.go:197-235 | in strictly increasing order |
| `CronField.SegmentBounds` | pkg/scheduler/task.go:234-296 | accepted bounds are ordered and in range, the step is positive, and a start of 7 was folded |
| `CronField.SegmentValuesSplit` | pkg/scheduler/task.go:297-305 | the 64-bit loop adds the progression and whatever the wrapped counter meets again |
| `CronField.SegmentValuesExact` | pkg/scheduler/task.go:297-305 | the loop computes the intended values exactly when the wrapped counter does not come back into range |
| `CronField.HugeStepSelectsMore` | pkg/scheduler/task.go:297-305 | on the segment the step 9223372036854775807 selects 1, 3 and 5 instead of 5 |
| `CronField.HugeStepField` | pkg/scheduler/task.go:205-232 | the minute field "5/9223372036854775807" parses to 1, 3 and 5 |
| `CronField.SegmentRoundTrip` | pkg/scheduler/task.go:234-296 | every well-formed segment parses to the bounds it stands for |
| `CronText.SegmentExactly` | pkg/scheduler/task.go:234-296 | a segment is accepted exactly when its text reads as a well-formed segment of the grammar, with the bounds that one stands for |
| `CronText.FieldAcceptedExactly` | pkg/scheduler/task.go:205-232 | a field is accepted exactly when it is "*" or each comma segment reads as a well-formed one |
| `CronText.SevenIsSunday` | pkg/scheduler/task.go:308-313 | the weekdays 7 and 0 both select Sunday |
| `CronText.RangeToSevenExactly` | pkg/scheduler/task.go:256-296 | a weekday range that ends in 7 is refused unless it starts on a Sunday, and then selects Sunday alone |
| `CronField.AppendSegment` | pkg/scheduler/task.go:234-306 | the loop adds exactly the segment's values to the map, or rejects the segment |
| `CronField.CollectSegments` | pkg/scheduler/task.go:215-226 | the union over the segments, or failure if one is blank or rejected |
| `CronField.ParseField` | pkg/scheduler/task.go:205-232 | the parsed field as the specification says |
| `CronField.FieldInRange` | pkg/scheduler/task.go:205-232 | an accepted field other than "*" is non-empty, in range and never contains 7 for day-of-week |
| `CronField.FieldDenotation` | pkg/scheduler/task.go:205-313 | the values of every accepted field: the union over the segments of start, start + step, ... up to end, folded, and of what a wrapped counter adds |
| `CronField.AsIntendedExactly` | pkg/scheduler/task.go:205-313 | a field selects exactly what its segments mean if and only if every value a wrapped counter adds is meant by some segment |
| `CronField.StepsInRangeAsIntended` | pkg/scheduler/task.go:205-313 | in particular when no step wraps the counter back into range |
| `CronField.FieldRoundTrip` | pkg/scheduler/task.go:205-313 | every field written from sound segments is accepted and selects exactly what they stand for |
| `CronSearch.ParseExpression` | pkg/scheduler/task.go:174-203 | all five fields are parsed in order with their limits |
| `CronSearch.ExpressionOfPrinted` | pkg/scheduler/task.go:174-203 | of any five written fields the first gives the minutes, the second the hours, then days, months and weekdays |
| `CronSearch.ScheduleOfPrinted` | pkg/scheduler/task.go:89-110 | the same for the text of the schedule |
| `CronSearch.MatchesExactly` | pkg/scheduler/task.go:145-172 | the either-day rule: two explicit day fields are alternatives, otherwise both have to allow the day |
| `CronSearch.MatchesAsWritten` | pkg/scheduler/task.go:145-203 | a written schedule matches exactly the local times that meet it |
| `CronSearch.ParsedInRange` | pkg/scheduler/task.go:174-203 | a parsed expression has non-empty fields in range |
| `CronSearch.Search` | pkg/scheduler/task.go:107-121 | the loop returns the least matching minute of the window, or none matches |
| `CronSearch.NextRunIsLeast` | pkg/scheduler/task.go:107-121 | the next run is the least matching minute boundary strictly after now |
| `CronSearch.NextRunAsWritten` | pkg/scheduler/task.go:89-203 | the next run of a written schedule is the first minute boundary after now whose local time meets it; with weekdays and "*" for the day it falls on one of those weekdays |
| `CronSearch.NextRunConstantUntilDue` | pkg/scheduler/task.go:89-122 | it is the same for every clock reading before it |
| `CronSearch.NextRunMonotone` | pkg/scheduler/task.go:89-122 | it is monotone in now |
| `CronSearch.NextRunForSchedule` | pkg/scheduler/task.go:89-122 | both schedule forms: a positive @every duration is added to now, five fields are searched, everything else is refused |
| `CronSearch.OrdinaryDayIsFound` | pkg/scheduler/task.go:145-172 | the search succeeds from every start when some day that exists every year is allowed |
| `CronSearch.OnlyLeapDayMatches` | pkg/scheduler/task.go:145-172 | otherwise only 29 February can match |
| `Calendar.WeekdaysFollow` | pkg/scheduler/task.go:156 | weekdays follow one another, and 1 January 2000 was a Saturday |
| `CronSearch.SearchFailsExactly` | pkg/scheduler/task.go:107-121 | the exact condition under which the 2,635,200-minute search fails in UTC |
| `CronSearch.LeapDayWithinFourYears` | pkg/scheduler/task.go:18 | a 29 February lies in the window when none of the next four years is a century without one |
| `CronSearch.NoLeapDayAroundCentury` | pkg/scheduler/task.go:18 | around such a century the window can hold none |
| `CronSearch.FieldsOfJoin` | pkg/scheduler/task.go:102-105 | fields separated by single spaces are found again |
| `CronSearch.LeapDayScheduleFailsIn2096` | pkg/scheduler/task.go:18 | the expression of "0 0 29 2 *" finds nothing from 1 March 2096 |
| `CronSearch.LeapDayTextFails` | pkg/scheduler/task.go:89-122 | the text "0 0 29 2 *" parses and has no next run when the search starts on that day or one of the 1089 after it |
| `SingleFlight.LeadersStep` | pkg/http/cache/cache.go:804-824 | every step keeps each leader's call in the group and the group free of dead calls |
| `SingleFlight.SourcesStep` | pkg/http/cache/cache.go:187-334 | every step keeps stored, held, shared and served entries traceable to status-200 runs for their key |
| `SingleFlight.Invariants` | pkg/http/cache/cache.go:187-334 | both hold at every moment of every run |
| `SingleFlight.OneLeaderPerKey` | pkg/http/cache/cache.go:804-824 | at every moment each key has at most one leader |
| `SingleFlight.LeaderCanSignal` | pkg/http/cache/cache.go:816-817 | a leader with an outcome is never blocked from signalling it |
| `SingleFlight.LeaderDeletesOwnCall` | pkg/http/cache/cache.go:819-821 | a leader deletes its own call and nobody else's |
| `SingleFlight.FollowerGetsLeadersEntry` | pkg/http/cache/cache.go:806-810 | a follower is answered with its leader's entry, from the leader's own status-200 run for the key |
| `SingleFlight.ServedFromHandler` | pkg/http/cache/cache.go:216-248 | HIT and STALE responses carry the body of a status-200 run for the key; HIT within the TTL, STALE strictly inside the stale window |
| `SingleFlight.StaleOnlyWhileRevalidating` | pkg/http/cache/cache.go:223-227 | STALE is served only while another request leads a call for the key |
| `SingleFlight.LoadExactly` | pkg/http/cache/cache.go:215-279 | a lookup is a HIT exactly within the TTL after the handler run, a candidate for STALE inside the stale window, and a miss otherwise |
| `SingleFlight.ProbeExactly` | pkg/http/cache/cache.go:223-227 | a candidate is served STALE exactly while another request leads the key |
| `SingleFlight.EntryKept` | pkg/http/cache/cache.go:257-334 | a stored entry stays until it is evicted or replaced |
| `SingleFlight.HitWhileFresh` | pkg/http/cache/cache.go:187-334 | what a leader stored is served as a HIT to every request within the TTL until it is evicted or replaced |
| `SingleFlight.HandlerReturnsExactly` | pkg/http/cache/cache.go:281-334 | a run with status 200 gives an entry with its two windows, any other status none |
| `SingleFlight.FollowersShareOutcome` | pkg/http/cache/cache.go:231-248 | every follower gets the entry its leader stored, and none when handler or store failed |
| `RequestGroups.RequestGroup.Begin` | pkg/http/cache/cache.go:805-814 | joins the call of the key or starts a new one; a step of `SingleFlight` |
| `RequestGroups.RequestGroup.Finish` | pkg/http/cache/cache.go:816-821 | publishes the result and removes exactly this call; the deletion is a step of `SingleFlight` |
| `RequestGroups.RequestGroup.Do` | pkg/http/cache/cache.go:804-824 | a leader returns its own result, a follower that of the call it found or has to wait for it, and the group ends as it began |
| `CacheKey.EscapeRoundTrip` | pkg/http/cache/cache.go:436 | query escaping can be undone |
| `CacheKey.EscapeHasNoSeparator` | pkg/http/cache/cache.go:436 | escaped values contain no ':', '=' or '&' |
| `CacheKey.CacheableHasNoColon` | pkg/http/cache/cache.go:193-196 | a GET or HEAD method, raw or upper-cased, contains no ':' |
| `CacheKey.MethodCaseIgnored` | pkg/http/cache/cache.go:193-196 | the case of GET and HEAD does not matter |
| `CacheKey.BuildCacheKey` | pkg/http/cache/cache.go:418-439 | fails exactly when a required value is missing, and otherwise joins the specified key, which begins with prefix, upper-cased method and path |
| `CacheKey.RuleKeyInjective` | pkg/http/cache/cache.go:418-439 | without optional rules the key determines method, path and rule values, whatever ':' or '=' paths and names contain |
| `CacheKey.OptionalRuleCollides` | pkg/http/cache/cache.go:425-431 | whatever the rules, a path can imitate a missing first value |
| `CacheKey.OptionalRulesExactly` | pkg/http/cache/cache.go:418-439 | for distinct names without ':' or '=' the key is injective over all paths if and only if there are no rules or the first is required |
| `CacheKey.FencedKeyInjective` | pkg/http/cache/cache.go:418-439 | the key determines method, path, values and which were missing when a required first rule or a colon-free path keeps path and rules apart |
| `CacheKey.OptionalKeyInjective` | pkg/http/cache/cache.go:418-439 | in particular for colon-free paths, also when the first rule is optional |
| `CacheKey.EncodePairsInjective` | pkg/http/cache/cache.go:569-574 | the canonical query determines the sorted pairs |
| `CacheKey.PlainKeyInjective` | pkg/http/cache/cache.go:414-416 | without rules the key determines method, path and query |
| `AuditChain.AppendIff` | pkg/audit/audit.go:133-158 | a log with one more record is good exactly when the log is and the record continues its own stream |
| `AuditChain.CheckRecord` | pkg/audit/audit.go:137-153 | the five checks in order, each failure with what it says about the record, including the 64-bit wrap of the sequence number |
| `AuditChain.VerifyChain` | pkg/audit/audit.go:133-158 | accepts exactly the logs without nil records in which every stream is a chain 1..n; a refusal names the first bad record and what is wrong with it |
| `AuditChain.PrefixOfGood` | pkg/audit/audit.go:133-158 | every prefix of a good log is good |
| `AuditChain.Seal` | pkg/audit/audit.go:92-99 | stores the digest of the record and changes nothing else |
| `AuditChain.SealedRecordExtends` | pkg/audit/audit.go:92-99 | a sealed record that continues its stream keeps the log acceptable |
| `AuditChain.SameHeadSameHistory` | pkg/audit/audit.go:77-158 | accepted logs whose last digests for a stream agree have identical histories for it |
| `AuditChain.InterleavingIndependent` | pkg/audit/audit.go:133-158 | logs without a common stream, woven together in any way, are accepted exactly when each is |
| `Nonce.InMemoryNonceStore.Use` | pkg/http/httpsignature/httpsignature.go:78-96 | accepts a key exactly when no unexpired entry holds it, and leaves no expired entry |
| `Nonce.InMemoryNonceStore.Purge` | pkg/http/httpsignature/httpsignature.go:86-90 | the loop removes exactly the expired entries |
| `Nonce.Handle` | pkg/http/httpsignature/httpsignature.go:151-199 | accepts exactly requests with a key id, inside the skew, and with a nonce that no unexpired entry holds where nonces are required |
| `Nonce.AcceptedExactly` | pkg/http/httpsignature/httpsignature.go:78-199 | in every run a request is accepted exactly when it is in the window and no earlier accepted one with the same key is unexpired and unpurged |
| `Nonce.NonceKeyExactly` | pkg/http/httpsignature/httpsignature.go:189-199 | keys tell key id and nonce apart when key ids hold no colon |
| `Nonce.AcceptedAtMostOnce` | pkg/http/httpsignature/httpsignature.go:168-199 | with required nonces and a lifetime above twice the skew plus the lag no request is accepted twice, despite purging |
| `Nonce.ReplaySucceeds` | pkg/http/httpsignature/httpsignature.go:172-199 | with a shorter lifetime a run with an accepted replay exists |
| `Nonce.ReplayFreeExactly` | pkg/http/httpsignature/httpsignature.go:168-199 | the exact condition on the configuration |
| `Nonce.DefaultsAllowReplay` | pkg/http/httpsignature/httpsignature.go:114-132 | the default configuration does not meet it |
| `Breaker.HistoryAgrees` | pkg/resilience/circuitbreaker.go:75-134 | in every run the counters and the last failure time are functions of the event history |
| `Breaker.ClosedCountsFailures` | pkg/resilience/circuitbreaker.go:98-134 | while closed the counter is the number of failures since the last success or reset, below the limit |
| `Breaker.OpensExactlyAtLimit` | pkg/resilience/circuitbreaker.go:98-116 | a closed breaker opens exactly at the failure that completes the row |
| `Breaker.OpenLeftExactly` | pkg/resilience/circuitbreaker.go:75-95 | open is left exactly by Reset or by a call more than the timeout after the latest failure, late ones included |
| `Breaker.HalfOpenLeftExactly` | pkg/resilience/circuitbreaker.go:75-157 | half-open is left exactly by a failure, to open, and by a success or reset, to closed |
| `Breaker.InFlightExactly` | pkg/resilience/circuitbreaker.go:59-72 | the calls in flight are those let through and not yet recorded |
| `Breaker.NothingPassesWhileCooling` | pkg/resilience/circuitbreaker.go:59-134 | from an open breaker on, every call up to the timeout after the failure is refused unless someone resets it |
| `Breaker.HalfOpenIsUnlimited` | pkg/resilience/circuitbreaker.go:75-95 | for every configuration and n some run is half-open with at least n calls in flight |
| `Breaker.CircuitBreaker.CanExecute` | pkg/resilience/circuitbreaker.go:75-95 | refuses exactly while open and unexpired, with the new state |
| `Breaker.CircuitBreaker.RecordFailure` | pkg/resilience/circuitbreaker.go:98-116 | the new state after a failure |
| `Breaker.CircuitBreaker.RecordSuccess` | pkg/resilience/circuitbreaker.go:119-134 | the new state after a success |
| `Breaker.CircuitBreaker.Reset` | pkg/resilience/circuitbreaker.go:151-157 | the new state after a reset |
| `Breaker.CircuitBreaker.Execute` | pkg/resilience/circuitbreaker.go:59-72 | a refused call changes nothing, a success leaves the breaker closed and clean |
| `RetryLoop.Normalize` | pkg/eventbus/retry_dlq.go:60-85 | every set value is kept and every unset or negative one becomes its default |
| `RetryLoop.RunAttempt` | pkg/eventbus/retry_dlq.go:245-249 | one attempt: the handler is started exactly when the breaker left by the earlier attempts is not open and unexpired |
| `RetryLoop.RunAttempts` | pkg/eventbus/retry_dlq.go:243-273 | at most the limit, each attempt through the breaker, the next only after a failure that asks for a retry |
| `RetryLoop.Finish` | pkg/eventbus/retry_dlq.go:275-377 | the one ending that goes with the attempts; a dead letter goes to the topic with its suffix and carries the whole message, where it came from, the last failure and the number of attempts |
| `RetryLoop.ConsumeWithRetry` | pkg/eventbus/retry_dlq.go:230-377 | at most MaxRetries+1 attempts, none after a success, and exactly one ending with the record or dead letter it sends |
| `RetryLoop.ConsumeWithDecide` | pkg/eventbus/retry_dlq.go:230-377 | with the shipped decider the attempts go on exactly after retryable failures; quarantine exactly with a sink and a failure that is not terminal, otherwise the dead letter |
| `RetryLoop.StartedEveryTimeExactly` | pkg/eventbus/retry_dlq.go:237-273 | with a handler that always fails it is started at every attempt if and only if each attempt beyond the breaker's limit comes after the reset time |
| `RetryLoop.NextAttemptSkipped` | pkg/eventbus/retry_dlq.go:237-249 | after a full row of failures the next attempt starts the handler exactly when it comes after the reset time |
| `RetryLoop.DefaultsSkipTheSixth` | pkg/eventbus/retry_dlq.go:19-34 | with default settings the sixth attempt, 16 seconds after the fifth, starts the handler exactly when it is more than 14 seconds late |
| `SemVer.SubmatchExactly` | pkg/version/semver.go:11 | the search for the groups agrees with the language of the pattern, which has one reading per text |
| `SemVer.ValidatePreRelease` | pkg/version/semver.go:173-189 | the loop accepts exactly the pre-releases without an empty or zero-led numeric identifier |
| `SemVer.ParseExactly` | pkg/version/semver.go:24-61 | parsing yields a version exactly on its printed form, with or without v and surrounding white space |
| `SemVer.ParseOfString` | pkg/version/semver.go:79-88 | Parse(String(v)) = v for every parsed version |
| `SemVer.LeadingZeroRefusedExactly` | pkg/version/semver.go:173-189 | a version is refused exactly when one of its identifiers is zero-led and fits 64 bits |
| `SemVer.LongLeadingZeroAccepted` | pkg/version/semver.go:184 | one beyond 64 bits is accepted |
| `SemVerOrder.ComparePreRelease` | pkg/version/semver.go:130-171 | the loop computes the order on pre-releases |
| `SemVerOrder.LexLessExactly` | pkg/version/semver.go:159-163 | the order on texts is decided by the first character that differs |
| `SemVerOrder.CompareAntisymmetric` | pkg/version/semver.go:107-171 | Compare is antisymmetric on all versions |
| `SemVerOrder.CompareTransitive` | pkg/version/semver.go:107-171 | its strict order is transitive on all versions |
| `SemVerOrder.ZeroMeansEqual` | pkg/version/semver.go:107-171 | without signed identifiers 0 means equal up to Build |
| `SemVerOrder.TwinsExactly` | pkg/version/semver.go:107-171 | a parsed version compares as equal to a different one if and only if an identifier is signed or zero |
| `SemVerOrder.SignedTwins` | pkg/version/semver.go:149-154 | every signed identifier has a different twin that compares as equal |
| `SemVerOrder.ZeroIsNotTransitive` | pkg/version/semver.go:144-165 | for every such identifier 0 is not transitive |
| `SemVerOrder.AgreesWithSection11` | pkg/version/semver.go:107-171 | Compare is the precedence of section 11 of SemVer 2.0.0 when numbers fit 64 bits and no identifier is signed |
| `SemVerOrder.AgreesExactly` | pkg/version/semver.go:107-171 | a parsed version is ordered against all ordinary ones as section 11 says if and only if it is ordinary: no signed identifier, no number beyond 64 bits |
| `SemVerOrder.BigNumbersMisordered` | pkg/version/semver.go:149-163 | every number beyond 64 bits is placed after a hyphen although numbers come first |
| `SemVerOrder.BigNumbersComparedAsText` | pkg/version/semver.go:159-163 | two numbers beyond 64 bits are compared as text |
| `JobCodec.ToEventBusMessage` | pkg/jobs/contract.go:91-148 | encoding succeeds exactly on valid jobs; id, key, payload, content type and time of the message |
| `JobCodec.FillHeaders` | pkg/jobs/contract.go:96-128 | the header map filled step by step is the one of `JobCodec.HeadersExactly` |
| `JobCodec.HeadersExactly` | pkg/jobs/contract.go:96-128 | what the message says under every header name |
| `JobCodec.JobFromEventBusMessageWithQueue` | pkg/jobs/contract.go:156-224 | decoding succeeds exactly on readable messages, and every field of the job: fallback queue, tenant, times and counters included |
| `JobCodec.RoundTrip` | pkg/jobs/contract.go:91-224 | decoding the message of any valid job yields that job, normalised |
| `JobCodec.RoundTripOfCleanJob` | pkg/jobs/contract.go:91-224 | with trimmed fields, set times and no reserved headers everything but headers, empty key and empty content type is unchanged |
| `JobCodec.OwnHeadersKept` | pkg/jobs/contract.go:96-128 | the job's own unreserved headers pass through |
| `JobCodec.TenantJobsSharePartition` | pkg/jobs/contract.go:227-242 | jobs of one tenant and name share a partition |
| `JobCodec.TenantPartitions` | pkg/jobs/contract.go:227-242 | with tenants that hold no colon, two such jobs share a partition exactly when tenant and name agree |
| `JobCodec.UntenantedJobsApart` | pkg/jobs/contract.go:227-242 | without a tenant the partition determines name and id when names hold no colon |

## Left out

- The DLQ index of the Redis backend, ListDLQ and the bookkeeping of ReplayDLQ; the job that ReplayDLQ puts back is an Enqueue of `RedisRuns` with a repeated id.
- Failed Redis and Postgres calls inside the object models; lost requests and replies are modelled for the locks in `Dispatch`.
- The worker's renewal goroutine and queue loop: a renewal is one of the commands of `RedisRuns`, at any time.
- dispatchTask and startLeaseRenewal are a state machine over their steps (`Dispatch`), not an object; the `tasks`, `running` and `cancel` fields, Trigger, Start and Stop are not part of this model.
- RuntimeBackends.RuntimeBackend.Register: the channel receive before it is a parameter, since a blocked receive is no step; subscriptions and Unsubscribe are not modelled.
- LockProviders.LockProvider.Acquire: lifetimes are whole milliseconds; Redis truncates a renewal below one millisecond to zero. The expiry of the Postgres row is computed from the client's clock, which is taken to be the shared one.
- RedisQueue.TransferShape: members with equal scores come in an order of Redis' choosing.
- RequestGroups.RequestGroup.Do: returns no result for a follower that has to wait, since waiting is not expressible in one method; `SingleFlight` has the waiting follower.
- CacheKey.OptionalRulesExactly: rule names with ':' or '=' are outside; without optional rules they do no harm (`CacheKey.RuleKeyInjective`).
- CacheKey.BuildCacheKey: the resolution of a rule's value from request and claims, and the default name of a rule, are parameters; letter case is ASCII.
- Serving a cached entry (headers, ETag, 304 and HEAD handling) and the capture of the response body: single branches; an entry carries status and body.
- RedisBackends.RedisBackend.Nack: one sequential call, so that the lease cannot vanish between its read and its transition; `RedisRuns` has the two steps apart.
- RuntimeBackends.RuntimeBackend.Renew: the restart of the lease timer; a timer may fire at any time in `RuntimeRuns`.
- RetryLoop.ConsumeWithRetry: the quarantine record and dead letter carry the fields that depend on the loop; marshalling them does not fail. A handler that outlives its timeout keeps running unobserved.
- HMAC, SHA-256, JSON and RFC 3339 are function parameters, injective where a statement needs it. Signature checks of `Nonce` are taken to have passed.
- Time zones: the local clock is an arbitrary function for the next-run laws, UTC for the search bound. Times before year 1 do not occur.
- Logging, tracing, metrics, nil receivers and nil contexts.
- Email, HTTP and gRPC servers, CLI, configuration, schema generation, JWT, health and feature flags: wiring or easy members.
