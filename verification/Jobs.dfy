/** The job record shared by the queue backends, the worker and the message codec. A time is a
    number of nanoseconds since Go's zero time, so 0 is the value for which `IsZero` holds. */
module Jobs {
  import opened Text

  type Time = nat

  datatype Job = Job(
    id: string, name: string, queue: string, payload: seq<bv8>, headers: map<string, string>,
    contentType: string, tenantId: string, correlationId: string, idempotencyKey: string,
    partitionKey: string, runAt: Time, attempt: int, maxAttempts: int, createdAt: Time)

  /** `Job.Validate` on a non-nil job. */
  predicate Valid(j: Job) {
    && Trim(j.id) != "" && Trim(j.name) != "" && Trim(j.queue) != ""
    && |j.payload| > 0
    && j.attempt >= 0 && j.maxAttempts >= 0
    && (j.maxAttempts > 0 ==> j.attempt <= j.maxAttempts)
  }

  datatype Error = Closed | InvalidArgument | Validation | NotFound | Conflict | Cancelled | Retryable | Transport

  datatype Result<T> = Ok(value: T) | Err(error: Error)

  const HEADER_FAILURE_REASON := "job_failure_reason"
  const HEADER_FAILED_AT := "job_failed_at"
  const HEADER_ORIGINAL_QUEUE := "job_original_queue"

  /** What a header map says under a name. */
  function Header(headers: map<string, string>, name: string): Option<string> {
    if name in headers then Some(headers[name]) else None
  }

  /** The headers after a failure: the text of the failure if there is one, the time, and for a dead
      letter its queue; every other header, and the text of an earlier failure when there is no new one,
      is as before. */
  ghost predicate FailureNoted(before: map<string, string>, after: map<string, string>, reason: Option<string>,
                               failedAt: string, original: Option<string>)
  {
    && Header(after, "job_failed_at") == Some(failedAt)
    && Header(after, "job_failure_reason") == (if reason.Some? then reason else Header(before, "job_failure_reason"))
    && Header(after, "job_original_queue") == (if original.Some? then original else Header(before, "job_original_queue"))
    && forall k :: k !in {"job_failed_at", "job_failure_reason", "job_original_queue"} ==> Header(after, k) == Header(before, k)
  }

  /** The two jobs differ at most in the fields a retry or a dead letter may change. */
  predicate SameWork(a: Job, b: Job) {
    && a.id == b.id && a.name == b.name && a.payload == b.payload && a.contentType == b.contentType
    && a.tenantId == b.tenantId && a.correlationId == b.correlationId && a.idempotencyKey == b.idempotencyKey
    && a.partitionKey == b.partitionKey && a.maxAttempts == b.maxAttempts && a.createdAt == b.createdAt
  }

  /** The failure headers that Nack and MoveToDLQ add. The formatted time is a parameter. */
  function WithFailure(headers: map<string, string>, reason: Option<string>, failedAt: string): map<string, string> {
    var h := if reason.Some? then headers[HEADER_FAILURE_REASON := reason.value] else headers;
    h[HEADER_FAILED_AT := failedAt]
  }

  /** The job a Nack puts back: one more attempt, the requested time or now, and the failure noted. */
  function RetryOf(j: Job, nextRunAt: Time, now: Time, reason: Option<string>, failedAt: string): (retry: Job)
    ensures SameWork(retry, j) && retry.queue == j.queue && retry.attempt == j.attempt + 1
    ensures nextRunAt != 0 ==> retry.runAt == nextRunAt
    ensures nextRunAt == 0 ==> retry.runAt == now
    ensures FailureNoted(j.headers, retry.headers, reason, failedAt, None)
  {
    j.(attempt := j.attempt + 1,
       headers := WithFailure(j.headers, reason, failedAt),
       runAt := if nextRunAt == 0 then now else nextRunAt)
  }

  /** The job MoveToDLQ stores under the dead-letter queue: attempt and run time stay. */
  function DeadLetterOf(j: Job, original: string, suffix: string, reason: Option<string>, failedAt: string): (dead: Job)
    ensures SameWork(dead, j) && dead.queue == original + suffix && dead.attempt == j.attempt && dead.runAt == j.runAt
    ensures FailureNoted(j.headers, dead.headers, reason, failedAt, Some(original))
  {
    j.(queue := original + suffix,
       headers := WithFailure(j.headers[HEADER_ORIGINAL_QUEUE := original], reason, failedAt))
  }

  /** The lease a client holds on a reserved job. */
  datatype Lease = Lease(jobId: string, token: string, queue: string, expireAt: Time, attempt: int)

  const DEFAULT_LEASE_TTL: nat := 30_000_000_000

  /** The lease time actually used. */
  function LeaseTime(leaseFor: int): (d: nat)
    ensures d > 0
    ensures leaseFor > 0 ==> d == leaseFor
    ensures leaseFor <= 0 ==> d == 30_000_000_000
  {
    if leaseFor <= 0 then DEFAULT_LEASE_TTL else leaseFor
  }
}
