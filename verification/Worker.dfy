/** The worker's processing of one leased job on the Redis backend. Handler results, clock readings
    and the quarantine sink's answer are parameters. */
module Worker {
  import opened Text
  import opened Jobs
  import opened RedisQueue
  import opened RedisPolls
  import opened RedisBackends
  import opened RetryPolicy

  /** The attempt limit `handleFailure` uses: the job's own, else the configured one, else 1. */
  function AttemptLimit(job: Job, configured: int): (limit: int)
    ensures limit >= 1
    ensures job.maxAttempts > 0 ==> limit == job.maxAttempts
    ensures job.maxAttempts <= 0 && configured > 0 ==> limit == configured
    ensures job.maxAttempts <= 0 && configured <= 0 ==> limit == 1
  {
    var limit := if job.maxAttempts > 0 then job.maxAttempts else configured;
    if limit <= 0 then 1 else limit
  }

  /** A nacked job is usable again unless it had already used up its own attempt limit; in that case
      the next Reserve drops it. */
  lemma RetriedJobUsable(job: Job, nextRunAt: Time, now: Time, reason: Option<string>, failedAt: string, queue: string)
    requires Valid(job)
    ensures Decoded(Encoded(RetryOf(job, nextRunAt, now, reason, failedAt)), queue).Some?
       <==> !(job.maxAttempts > 0 && job.attempt == job.maxAttempts)
  {
    var retry := RetryOf(job, nextRunAt, now, reason, failedAt);
    assert retry.queue == job.queue && retry.id == job.id && retry.name == job.name && retry.payload == job.payload;
  }

  /** The worker asks for a retry only below the limit, so its retried jobs are always usable. */
  lemma WorkerRetriesUsable(job: Job, kind: Classification, configured: int, policy: Policy)
    requires Valid(job)
    requires Decide(kind, job.attempt + 1, AttemptLimit(job, configured), policy) == DelayedRetry
    ensures !(job.maxAttempts > 0 && job.attempt == job.maxAttempts)
  {
  }

  /** The calls that end a lease. */
  datatype Call = AckCall | NackCall | DlqCall

  /** What the backend holds afterwards, for the lease `token` on `job`. */
  ghost predicate Gone(before: Db, after: Db, token: string) {
    after == DeleteLease(before, token)
  }

  /** A failure as the worker sees it: its class, its text, and the formatted time. */
  datatype Failure = Failure(kind: Classification, reason: string, failedAt: string)

  /** One more attempt, the failure in the headers, and ready or delayed by its new run time. */
  ghost predicate Requeued(before: Db, after: Db, token: string, job: Job, f: Failure, nextRun: Time, now: Time) {
    var retry := RetryOf(job, nextRun, now, Some(f.reason), f.failedAt);
    && retry.id == job.id && retry.queue == job.queue && retry.attempt == job.attempt + 1
    && after == Put(DeleteLease(before, token), Trim(job.queue), Encoded(retry), Ms(retry.runAt), Ms(retry.runAt) <= Ms(now))
  }

  ghost predicate InDeadLetterQueue(before: Db, after: Db, token: string, job: Job, suffix: string, f: Failure) {
    var dead := DeadLetterOf(job, Trim(job.queue), suffix, Some(f.reason), f.failedAt);
    && dead.id == job.id && dead.attempt == job.attempt && dead.queue == Trim(job.queue) + suffix
    && after == Rpush(DeleteLease(before, token), Trim(dead.queue), Encoded(dead))
  }

  /** The outcome that goes with each terminal call. */
  ghost predicate Outcome(before: Db, after: Db, token: string, job: Job, suffix: string, f: Failure, nextRun: Time, now: Time, calls: seq<Call>) {
    if calls == [] then after == before
    else if calls == [AckCall] then Gone(before, after, token)
    else if calls == [NackCall] then Requeued(before, after, token, job, f, nextRun, now)
    else calls == [DlqCall] && InDeadLetterQueue(before, after, token, job, suffix, f)
  }

  /** `quarantine` is the answer of the quarantine sink, if there is one. */
  datatype Settings = Settings(maxAttempts: int, deadLetter: bool, quarantine: Option<bool>, initialBackoff: nat, maxBackoff: nat)

  /** A retryable failure of a job that has attempts left after this one. */
  predicate TriesAgain(job: Job, f: Failure, s: Settings) {
    && f.kind.RetryableClass?
    && job.attempt + 1 < if job.maxAttempts > 0 then job.maxAttempts else if s.maxAttempts > 0 then s.maxAttempts else 1
  }

  /** The terminal calls that go with a failure: a retry as long as there are attempts left; after that
      the quarantine sink, if there is one and the failure is not terminal, and an Ack if it took the
      job; else the dead-letter queue, or an Ack that drops the job when there is none. */
  function Terminal(job: Job, f: Failure, s: Settings): seq<Call> {
    if TriesAgain(job, f, s) then [NackCall]
    else if s.quarantine.Some? && !f.kind.TerminalClass? then (if s.quarantine.value then [AckCall] else [])
    else if s.deadLetter then [DlqCall]
    else [AckCall]
  }

  /** What the worker reports when the backend did its part: a failed sink, a dropped job, or nothing. */
  function Reported(f: Failure, s: Settings, calls: seq<Call>): Result<()> {
    if calls == [] then Err(Retryable)
    else if calls == [AckCall] && (s.quarantine.None? || f.kind.TerminalClass?) then Err(Conflict)
    else Ok(())
  }

  /** `handleFailure`: exactly one terminal call, none only if the quarantine sink fails, with the
      matching outcome. A retry is due after the backoff for the attempts so far. */
  method HandleFailure(b: RedisBackend, job: Job, token: string, leaseQueue: string, f: Failure, s: Settings, now: Time)
    returns (r: Result<()>, ghost calls: seq<Call>)
    modifies b`ready, b`delayed, b`leases
    ensures calls == Terminal(job, f, s)
    ensures old(b.ReadLease(token, leaseQueue)).Ok? ==> r == Reported(f, s, calls)
    ensures old(b.ReadLease(token, leaseQueue)).Err? ==> r.Err? || calls == [AckCall]
    ensures b.closed || Trim(token) == "" ==> r == Err(Retryable)
    ensures old(b.ReadLease(token, leaseQueue).Ok? && b.ReadLease(token, leaseQueue).value.1 == job) ==>
      Outcome(old(b.Snapshot()), b.Snapshot(), Trim(token), job, b.dlqSuffix, f,
              now + Backoff(job.attempt + 1, s.initialBackoff, s.maxBackoff), now, calls)
    ensures old(b.ReadLease(token, leaseQueue)).Err? && calls != [] && calls != [AckCall] ==>
      r.Err? && b.Snapshot() == old(b.Snapshot())
  {
    var disposition := Decide(f.kind, job.attempt + 1, AttemptLimit(job, s.maxAttempts), Policy(s.deadLetter, s.quarantine.Some?));
    var delay := ExponentialBackoff(job.attempt + 1, s.initialBackoff, s.maxBackoff);
    r, calls := Settle(b, job, token, leaseQueue, f, s, disposition, now + delay, now);
    CallsOfDecide(job, f, s);
  }

  /** The calls that go with a disposition. */
  function CallsFor(d: Disposition, s: Settings): seq<Call> {
    if d.DelayedRetry? then [NackCall]
    else if d.Quarantined? && s.quarantine.Some? then (if s.quarantine.value then [AckCall] else [])
    else if d.DeadLettered? || d.Quarantined? then [DlqCall]
    else [AckCall]
  }

  lemma CallsOfDecide(job: Job, f: Failure, s: Settings)
    ensures var d := Decide(f.kind, job.attempt + 1, AttemptLimit(job, s.maxAttempts), Policy(s.deadLetter, s.quarantine.Some?));
      && CallsFor(d, s) == Terminal(job, f, s)
      && (d.Quarantined? <==> !TriesAgain(job, f, s) && s.quarantine.Some? && !f.kind.TerminalClass?)
      && d != ImmediateRetry
  {
  }

  /** What `handleFailure` does for a disposition. */
  method Settle(b: RedisBackend, job: Job, token: string, leaseQueue: string, f: Failure, s: Settings, disposition: Disposition,
                nextRun: Time, now: Time) returns (r: Result<()>, ghost calls: seq<Call>)
    modifies b`ready, b`delayed, b`leases
    ensures calls == CallsFor(disposition, s)
    ensures old(b.ReadLease(token, leaseQueue)).Ok? ==>
      r == if calls == [] then Err(Retryable) else if disposition.Quarantined? || calls != [AckCall] then Ok(()) else Err(Conflict)
    ensures old(b.ReadLease(token, leaseQueue)).Err? ==> r.Err? || calls == [AckCall]
    ensures b.closed || Trim(token) == "" ==> r == Err(Retryable)
    ensures old(b.ReadLease(token, leaseQueue).Ok? && b.ReadLease(token, leaseQueue).value.1 == job) ==>
      Outcome(old(b.Snapshot()), b.Snapshot(), Trim(token), job, b.dlqSuffix, f, nextRun, now, calls)
    ensures old(b.ReadLease(token, leaseQueue)).Err? && calls != [] && calls != [AckCall] ==>
      r.Err? && b.Snapshot() == old(b.Snapshot())
  {
    if disposition.DelayedRetry? {
      calls := [NackCall];
      r := Retry(b, job, token, leaseQueue, f, nextRun, now);
    } else if disposition.Quarantined? && s.quarantine.Some? {
      calls := [];
      if !s.quarantine.value {
        return Err(Retryable), calls;
      }
      calls := [AckCall];
      var acked := b.Ack(token);
      r := if acked.Err? then Err(Retryable) else Ok(());
    } else if disposition.DeadLettered? || disposition.Quarantined? {
      calls := [DlqCall];
      r := Bury(b, job, token, leaseQueue, f, now);
    } else {
      calls := [AckCall];
      var acked := b.Ack(token);
      r := if acked.Err? then Err(Retryable) else Err(Conflict);
    }
  }

  /** The delay before the next attempt doubles with each attempt, up to the limit. */
  lemma RetryDelay(job: Job, s: Settings)
    requires Valid(job) && s.maxBackoff % 2 == 0
    ensures Backoff(job.attempt + 1, s.initialBackoff, s.maxBackoff) == Min(Doubled(s.initialBackoff, job.attempt), s.maxBackoff)
  {
    BackoffIsCapped(job.attempt + 1, s.initialBackoff, s.maxBackoff);
  }

  method Retry(b: RedisBackend, job: Job, token: string, leaseQueue: string, f: Failure, nextRun: Time, now: Time) returns (r: Result<()>)
    modifies b`ready, b`delayed, b`leases
    ensures old(b.ReadLease(token, leaseQueue).Ok? && b.ReadLease(token, leaseQueue).value.1 == job) ==>
      Requeued(old(b.Snapshot()), b.Snapshot(), Trim(token), job, f, nextRun, now)
    ensures r == if old(b.ReadLease(token, leaseQueue)).Ok? then Ok(()) else Err(Retryable)
    ensures r.Err? ==> b.Snapshot() == old(b.Snapshot())
  {
    var nacked := b.Nack(token, leaseQueue, nextRun, now, Some(f.reason), f.failedAt);
    r := if nacked.Err? then Err(Retryable) else Ok(());
  }

  method Bury(b: RedisBackend, job: Job, token: string, leaseQueue: string, f: Failure, now: Time) returns (r: Result<()>)
    modifies b`ready, b`delayed, b`leases
    ensures old(b.ReadLease(token, leaseQueue).Ok? && b.ReadLease(token, leaseQueue).value.1 == job) ==>
      InDeadLetterQueue(old(b.Snapshot()), b.Snapshot(), Trim(token), job, b.dlqSuffix, f)
    ensures r == if old(b.ReadLease(token, leaseQueue)).Ok? then Ok(()) else Err(Retryable)
    ensures r.Err? ==> b.Snapshot() == old(b.Snapshot())
  {
    var moved := b.MoveToDLQ(token, leaseQueue, now, Some(f.reason), f.failedAt);
    r := if moved.Err? then Err(Retryable) else Ok(());
  }

  /** What the lookup of the handler, its run and the renewal loop gave. */
  datatype Execution = Missing(reason: string, failedAt: string) | Ran(failed: Option<Failure>)

  /** The failure to handle; a missing handler makes the job poison. */
  function FailureOf(exec: Execution): Option<Failure> {
    match exec
    case Missing(reason, failedAt) => Some(Failure(PoisonClass, reason, failedAt))
    case Ran(failed) => failed
  }

  /** `process`: an Ack after success and the calls of `handleFailure` otherwise, so that the job ends
      gone, requeued with one more attempt, or in the dead-letter queue. A job without a handler is not
      tried again. */
  method Process(b: RedisBackend, job: Job, token: string, leaseQueue: string, exec: Execution, s: Settings, now: Time)
    returns (r: Result<()>, ghost calls: seq<Call>)
    modifies b`ready, b`delayed, b`leases
    ensures exec == Ran(None) ==> calls == [AckCall] && r == if b.closed || Trim(token) == "" then Err(Retryable) else Ok(())
    ensures exec.Ran? && exec.failed.Some? ==> calls == Terminal(job, exec.failed.value, s)
    ensures exec.Missing? ==>
      calls == if s.quarantine.Some? then (if s.quarantine.value then [AckCall] else []) else if s.deadLetter then [DlqCall] else [AckCall]
    ensures old(b.ReadLease(token, leaseQueue).Ok? && b.ReadLease(token, leaseQueue).value.1 == job) ==>
      if exec == Ran(None) then Gone(old(b.Snapshot()), b.Snapshot(), Trim(token))
      else Outcome(old(b.Snapshot()), b.Snapshot(), Trim(token), job, b.dlqSuffix, FailureOf(exec).value,
                   now + Backoff(job.attempt + 1, s.initialBackoff, s.maxBackoff), now, calls)
  {
    if exec.Missing? {
      r, calls := HandleFailure(b, job, token, leaseQueue, Failure(PoisonClass, exec.reason, exec.failedAt), s, now);
      return;
    }
    if exec.failed.Some? {
      r, calls := HandleFailure(b, job, token, leaseQueue, exec.failed.value, s, now);
      return;
    }
    calls := [AckCall];
    var acked := b.Ack(token);
    r := if acked.Err? then Err(Retryable) else Ok(());
  }
}
