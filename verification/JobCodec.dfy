/** Jobs as event bus messages and back. RFC 3339 formatting is a pair of function parameters, and so
    is the clock reading that replaces an unset creation time. */
module JobCodec {
  import opened Text
  import opened Jobs

  const DEFAULT_CONTENT_TYPE := "application/json"

  const HEADER_ID := "job_id"
  const HEADER_NAME := "job_name"
  const HEADER_QUEUE := "job_queue"
  const HEADER_TENANT := "job_tenant_id"
  const HEADER_CORRELATION := "job_correlation_id"
  const HEADER_IDEMPOTENCY := "job_idempotency_key"
  const HEADER_RUN_AT := "job_run_at"
  const HEADER_ATTEMPT := "job_attempt"
  const HEADER_MAX_ATTEMPTS := "job_max_attempts"
  const TENANT := "tenant_id"
  const CORRELATION := "correlation_id"

  /** The header names the codec itself reads or writes. */
  const RESERVED: set<string> :=
    {HEADER_ID, HEADER_NAME, HEADER_QUEUE, HEADER_TENANT, HEADER_CORRELATION, HEADER_IDEMPOTENCY, HEADER_RUN_AT,
     HEADER_ATTEMPT, HEADER_MAX_ATTEMPTS, TENANT, CORRELATION}

  datatype Message = Message(
    id: string, key: string, value: seq<bv8>, headers: map<string, string>, contentType: string, timestamp: Time)

  datatype TimeFormat = TimeFormat(format: Time -> string, parse: string -> Option<Time>)

  /** The formatted time is read back, and carries no white space at its ends. */
  predicate Faithful(f: TimeFormat, t: Time) {
    f.parse(f.format(t)) == Some(t) && f.format(t) != "" && Trimmed(f.format(t))
  }

  /** A missing header reads as the empty string. */
  function Get(headers: map<string, string>, name: string): string {
    if name in headers then headers[name] else ""
  }

  function FirstNonEmpty(a: string, b: string): string {
    if Trim(a) != "" then a else if Trim(b) != "" then b else ""
  }

  /** The key that keeps a tenant's jobs of one name in order. */
  function JobPartitionKey(tenantId: string, name: string, id: string): (key: string)
    ensures key == "" <==> Trim(name) == "" && Trim(id) == ""
  {
    var t, n, i := Trim(tenantId), Trim(name), Trim(id);
    if t != "" && n != "" then t + ":" + n
    else if n != "" && i != "" then n + ":" + i
    else if i != "" then i
    else n
  }

  function CreatedAt(j: Job, now: Time): Time {
    if j.createdAt == 0 then now else j.createdAt
  }

  function RunAt(j: Job, now: Time): Time {
    if j.runAt == 0 then CreatedAt(j, now) else j.runAt
  }

  function Key(j: Job): string {
    if Trim(j.partitionKey) == "" then JobPartitionKey(j.tenantId, j.name, j.id) else Trim(j.partitionKey)
  }

  function ContentType(s: string): string {
    if Trim(s) == "" then DEFAULT_CONTENT_TYPE else Trim(s)
  }

  // ---- encoding ----

  /** A value that is written only when it is not blank. */
  function WithOptional(headers: map<string, string>, name: string, value: string): map<string, string> {
    if Trim(value) == "" then headers else headers[name := Trim(value)]
  }

  /** The same, but an existing non-empty header wins. */
  function WithFallback(headers: map<string, string>, name: string, value: string): map<string, string> {
    if Trim(value) == "" || Get(headers, name) != "" then headers else headers[name := Trim(value)]
  }

  function FixedHeaders(j: Job, f: TimeFormat, now: Time): map<string, string> {
    map[HEADER_ID := Trim(j.id), HEADER_NAME := Trim(j.name), HEADER_QUEUE := Trim(j.queue),
        HEADER_RUN_AT := f.format(RunAt(j, now)), HEADER_ATTEMPT := Itoa(j.attempt), HEADER_MAX_ATTEMPTS := Itoa(j.maxAttempts)]
  }

  function Fixed(j: Job, f: TimeFormat, now: Time): map<string, string> {
    j.headers + FixedHeaders(j, f, now)
  }

  function Tenanted(j: Job, f: TimeFormat, now: Time): map<string, string> {
    WithFallback(WithOptional(Fixed(j, f, now), HEADER_TENANT, j.tenantId), TENANT, j.tenantId)
  }

  function Correlated(j: Job, f: TimeFormat, now: Time): map<string, string> {
    WithFallback(WithOptional(Tenanted(j, f, now), HEADER_CORRELATION, j.correlationId), CORRELATION, j.correlationId)
  }

  function Headers(j: Job, f: TimeFormat, now: Time): map<string, string> {
    WithOptional(Correlated(j, f, now), HEADER_IDEMPOTENCY, j.idempotencyKey)
  }

  function Encoded(j: Job, f: TimeFormat, now: Time): Result<Message> {
    if !Valid(j) then Err(Validation)
    else Ok(Message(Trim(j.id), Key(j), j.payload, Headers(j, f, now), ContentType(j.contentType), CreatedAt(j, now)))
  }

  method ToEventBusMessage(j: Job, f: TimeFormat, now: Time) returns (r: Result<Message>)
    ensures r == Encoded(j, f, now)
    ensures r.Ok? <==> Valid(j)
    ensures r.Ok? ==>
      && r.value.id == Trim(j.id) && r.value.value == j.payload
      && r.value.timestamp == (if j.createdAt != 0 then j.createdAt else now)
      && r.value.contentType == (if Trim(j.contentType) != "" then Trim(j.contentType) else "application/json")
      && (Trim(j.partitionKey) != "" ==> r.value.key == Trim(j.partitionKey))
      && (Trim(j.partitionKey) == "" && Trim(j.tenantId) != "" ==> r.value.key == Trim(j.tenantId) + ":" + Trim(j.name))
      && (Trim(j.partitionKey) == "" && Trim(j.tenantId) == "" ==> r.value.key == Trim(j.name) + ":" + Trim(j.id))
  {
    if !Valid(j) {
      return Err(Validation);
    }
    var createdAt := j.createdAt;
    if createdAt == 0 {
      createdAt := now;
    }
    var runAt := j.runAt;
    if runAt == 0 {
      runAt := createdAt;
    }
    var headers := FillHeaders(j, f, now, runAt);
    var contentType := Trim(j.contentType);
    if contentType == "" {
      contentType := DEFAULT_CONTENT_TYPE;
    }
    var key := Trim(j.partitionKey);
    if key == "" {
      key := JobPartitionKey(j.tenantId, j.name, j.id);
    }
    r := Ok(Message(Trim(j.id), key, j.payload, headers, contentType, createdAt));
  }

  method FillHeaders(j: Job, f: TimeFormat, ghost now: Time, runAt: Time) returns (headers: map<string, string>)
    requires runAt == RunAt(j, now)
    ensures headers == Headers(j, f, now)
  {
    headers := j.headers;
    headers := headers[HEADER_ID := Trim(j.id)];
    headers := headers[HEADER_NAME := Trim(j.name)];
    headers := headers[HEADER_QUEUE := Trim(j.queue)];
    headers := headers[HEADER_RUN_AT := f.format(runAt)];
    headers := headers[HEADER_ATTEMPT := Itoa(j.attempt)];
    headers := headers[HEADER_MAX_ATTEMPTS := Itoa(j.maxAttempts)];
    assert headers == Fixed(j, f, now);
    headers := FillOptional(j, headers);
  }

  method FillOptional(j: Job, fixed: map<string, string>) returns (headers: map<string, string>)
    ensures headers ==
      (var tenant := WithFallback(WithOptional(fixed, HEADER_TENANT, j.tenantId), TENANT, j.tenantId);
       var correlated := WithFallback(WithOptional(tenant, HEADER_CORRELATION, j.correlationId), CORRELATION, j.correlationId);
       WithOptional(correlated, HEADER_IDEMPOTENCY, j.idempotencyKey))
  {
    headers := fixed;
    var trimmed := Trim(j.tenantId);
    if trimmed != "" {
      headers := headers[HEADER_TENANT := trimmed];
      if Get(headers, TENANT) == "" {
        headers := headers[TENANT := trimmed];
      }
    }
    trimmed := Trim(j.correlationId);
    if trimmed != "" {
      headers := headers[HEADER_CORRELATION := trimmed];
      if Get(headers, CORRELATION) == "" {
        headers := headers[CORRELATION := trimmed];
      }
    }
    trimmed := Trim(j.idempotencyKey);
    if trimmed != "" {
      headers := headers[HEADER_IDEMPOTENCY := trimmed];
    }
  }

  // ---- decoding ----

  /** An integer header: absent means 0, unreadable is an error. */
  function IntHeader(headers: map<string, string>, name: string): Option<int> {
    var s := Trim(Get(headers, name));
    if s == "" then Some(0) else ParseInt64(s)
  }

  /** The run-at header: absent means unset. */
  function TimeHeader(headers: map<string, string>, f: TimeFormat): Option<Time> {
    var s := Trim(Get(headers, HEADER_RUN_AT));
    if s == "" then Some(0) else f.parse(s)
  }

  function DecodedJob(m: Message, fallback: string, now: Time, runAt: Time, attempt: int, maxAttempts: int): Job {
    var h := m.headers;
    var queue := Trim(Get(h, HEADER_QUEUE));
    var created := if m.timestamp == 0 then now else m.timestamp;
    Job(Trim(m.id), Trim(Get(h, HEADER_NAME)), if queue == "" then Trim(fallback) else queue, m.value, h,
        ContentType(m.contentType), Trim(FirstNonEmpty(Get(h, HEADER_TENANT), Get(h, TENANT))),
        Trim(FirstNonEmpty(Get(h, HEADER_CORRELATION), Get(h, CORRELATION))), Trim(Get(h, HEADER_IDEMPOTENCY)), Trim(m.key),
        if runAt == 0 then created else runAt, attempt, maxAttempts, created)
  }

  function Decoded(m: Message, fallback: string, f: TimeFormat, now: Time): Result<Job> {
    if Trim(m.id) == "" || m.value == [] then Err(Validation)
    else
      var runAt, attempt, maxAttempts := TimeHeader(m.headers, f), IntHeader(m.headers, HEADER_ATTEMPT), IntHeader(m.headers, HEADER_MAX_ATTEMPTS);
      if runAt.None? || attempt.None? || maxAttempts.None? then Err(Validation)
      else
        var job := DecodedJob(m, fallback, now, runAt.value, attempt.value, maxAttempts.value);
        if Valid(job) then Ok(job) else Err(Validation)
  }

  /** A header without surrounding white space; a missing one says nothing. */
  function Says(m: Message, name: string): string {
    if name in m.headers then Trim(m.headers[name]) else ""
  }

  /** The header is missing or blank, which means 0, or it is a decimal number. */
  predicate SaysNumber(m: Message, name: string, n: int) {
    if Says(m, name) == "" then n == 0 else ParseInt64(Says(m, name)) == Some(n)
  }

  /** The message can be read as a job: it has an id, a payload, a name and a queue, if only the
      fallback; its time can be parsed, and its counters are numbers in order. */
  ghost predicate Readable(m: Message, fallback: string, f: TimeFormat) {
    && Trim(m.id) != "" && m.value != [] && Says(m, HEADER_NAME) != "" && (Says(m, HEADER_QUEUE) != "" || Trim(fallback) != "")
    && (Says(m, HEADER_RUN_AT) != "" ==> f.parse(Says(m, HEADER_RUN_AT)).Some?)
    && exists a, n :: SaysNumber(m, HEADER_ATTEMPT, a) && SaysNumber(m, HEADER_MAX_ATTEMPTS, n) && 0 <= a && 0 <= n && (n > 0 ==> a <= n)
  }

  /** The job that the message stands for, field by field. */
  predicate StandsFor(m: Message, fallback: string, f: TimeFormat, now: Time, j: Job) {
    && j.id == Trim(m.id) && j.name == Says(m, HEADER_NAME) && j.payload == m.value && j.headers == m.headers
    && j.queue == (if Says(m, HEADER_QUEUE) != "" then Says(m, HEADER_QUEUE) else Trim(fallback))
    && j.contentType == (if Trim(m.contentType) != "" then Trim(m.contentType) else "application/json")
    && j.tenantId == (if Says(m, HEADER_TENANT) != "" then Says(m, HEADER_TENANT) else Says(m, TENANT))
    && j.correlationId == (if Says(m, HEADER_CORRELATION) != "" then Says(m, HEADER_CORRELATION) else Says(m, CORRELATION))
    && j.idempotencyKey == Says(m, HEADER_IDEMPOTENCY) && j.partitionKey == Trim(m.key)
    && j.createdAt == (if m.timestamp != 0 then m.timestamp else now)
    && (if Says(m, HEADER_RUN_AT) == "" || f.parse(Says(m, HEADER_RUN_AT)) == Some(0) then j.runAt == j.createdAt
        else f.parse(Says(m, HEADER_RUN_AT)) == Some(j.runAt))
    && SaysNumber(m, HEADER_ATTEMPT, j.attempt) && SaysNumber(m, HEADER_MAX_ATTEMPTS, j.maxAttempts)
  }

  /** The decoder yields a job exactly for the readable messages, and the one the message stands for. */
  lemma DecodedExactly(m: Message, fallback: string, f: TimeFormat, now: Time)
    ensures Decoded(m, fallback, f, now).Ok? <==> Readable(m, fallback, f)
    ensures Decoded(m, fallback, f, now).Ok? ==>
      Valid(Decoded(m, fallback, f, now).value) && StandsFor(m, fallback, f, now, Decoded(m, fallback, f, now).value)
  {
    if Readable(m, fallback, f) {
      ReadableDecodes(m, fallback, f, now);
    }
    if Decoded(m, fallback, f, now).Ok? {
      DecodedReadable(m, fallback, f, now);
    }
  }

  lemma ReadableDecodes(m: Message, fallback: string, f: TimeFormat, now: Time)
    requires Readable(m, fallback, f)
    ensures Decoded(m, fallback, f, now).Ok?
  {
    NumberHeader(m, HEADER_ATTEMPT);
    NumberHeader(m, HEADER_MAX_ATTEMPTS);
    DecodedFields(m, fallback, now);
    var a, n :| SaysNumber(m, HEADER_ATTEMPT, a) && SaysNumber(m, HEADER_MAX_ATTEMPTS, n) && 0 <= a && 0 <= n && (n > 0 ==> a <= n);
    var job := DecodedJob(m, fallback, now, TimeHeader(m.headers, f).value, a, n);
    assert Valid(job);
  }

  lemma DecodedReadable(m: Message, fallback: string, f: TimeFormat, now: Time)
    requires Decoded(m, fallback, f, now).Ok?
    ensures Readable(m, fallback, f) && StandsFor(m, fallback, f, now, Decoded(m, fallback, f, now).value)
  {
    NumberHeader(m, HEADER_ATTEMPT);
    NumberHeader(m, HEADER_MAX_ATTEMPTS);
    DecodedFields(m, fallback, now);
    var a, n := IntHeader(m.headers, HEADER_ATTEMPT).value, IntHeader(m.headers, HEADER_MAX_ATTEMPTS).value;
    assert SaysNumber(m, HEADER_ATTEMPT, a) && SaysNumber(m, HEADER_MAX_ATTEMPTS, n);
  }

  lemma NumberHeader(m: Message, name: string)
    ensures forall n :: SaysNumber(m, name, n) <==> IntHeader(m.headers, name) == Some(n)
  {
    assert Trim("") == "";
  }

  /** The parts of the decoded job that do not depend on numbers and times. */
  lemma DecodedFields(m: Message, fallback: string, now: Time)
    ensures forall runAt, a, n ::
      var j := DecodedJob(m, fallback, now, runAt, a, n);
      && Trim(j.id) == j.id && Trim(j.name) == j.name && Trim(j.queue) == j.queue
      && j.tenantId == (if Says(m, HEADER_TENANT) != "" then Says(m, HEADER_TENANT) else Says(m, TENANT))
      && j.correlationId == (if Says(m, HEADER_CORRELATION) != "" then Says(m, HEADER_CORRELATION) else Says(m, CORRELATION))
      && j.name == Says(m, HEADER_NAME) && j.idempotencyKey == Says(m, HEADER_IDEMPOTENCY)
  {
    assert Trim("") == "";
    TrimTwice(m.id);
    TrimTwice(Get(m.headers, HEADER_NAME));
    TrimTwice(Get(m.headers, HEADER_QUEUE));
    TrimTwice(fallback);
  }

  method JobFromEventBusMessageWithQueue(m: Message, fallback: string, f: TimeFormat, now: Time) returns (r: Result<Job>)
    ensures r == Decoded(m, fallback, f, now)
    ensures r.Ok? <==> Readable(m, fallback, f)
    ensures r.Ok? ==> Valid(r.value) && StandsFor(m, fallback, f, now, r.value)
  {
    DecodedExactly(m, fallback, f, now);
    if Trim(m.id) == "" || |m.value| == 0 {
      return Err(Validation);
    }
    var h := m.headers;
    var job := Job(Trim(m.id), Trim(Get(h, HEADER_NAME)), Trim(Get(h, HEADER_QUEUE)), m.value, h, Trim(m.contentType),
                   Trim(FirstNonEmpty(Get(h, HEADER_TENANT), Get(h, TENANT))),
                   Trim(FirstNonEmpty(Get(h, HEADER_CORRELATION), Get(h, CORRELATION))), Trim(Get(h, HEADER_IDEMPOTENCY)),
                   Trim(m.key), 0, 0, 0, m.timestamp);
    if job.contentType == "" {
      job := job.(contentType := DEFAULT_CONTENT_TYPE);
    }
    if job.queue == "" {
      job := job.(queue := Trim(fallback));
    }
    var runAt := TimeHeader(h, f);
    if runAt.None? {
      return Err(Validation);
    }
    job := job.(runAt := runAt.value);
    if job.runAt == 0 {
      job := job.(runAt := job.createdAt);
    }
    if job.createdAt == 0 {
      job := job.(createdAt := now);
      if job.runAt == 0 {
        job := job.(runAt := job.createdAt);
      }
    }
    var attempt, maxAttempts := IntHeader(h, HEADER_ATTEMPT), IntHeader(h, HEADER_MAX_ATTEMPTS);
    if attempt.None? || maxAttempts.None? {
      return Err(Validation);
    }
    job := job.(attempt := attempt.value, maxAttempts := maxAttempts.value);
    r := if Valid(job) then Ok(job) else Err(Validation);
  }

  // ---- the round trip ----

  /** What comes back for a blank field: whatever the job's own headers carry under the reserved names. */
  function Restored(field: string, headers: map<string, string>, name: string, other: string): string {
    if Trim(field) != "" then Trim(field) else Trim(FirstNonEmpty(Get(headers, name), Get(headers, other)))
  }

  /** The job that encoding and decoding yields: trimmed fields, defaults filled in, and the headers of
      the message. */
  function Normal(j: Job, f: TimeFormat, now: Time): Job {
    Job(Trim(j.id), Trim(j.name), Trim(j.queue), j.payload, Headers(j, f, now), ContentType(j.contentType),
        Restored(j.tenantId, j.headers, HEADER_TENANT, TENANT),
        Restored(j.correlationId, j.headers, HEADER_CORRELATION, CORRELATION),
        Restored(j.idempotencyKey, j.headers, HEADER_IDEMPOTENCY, HEADER_IDEMPOTENCY),
        Key(j), RunAt(j, now), j.attempt, j.maxAttempts, CreatedAt(j, now))
  }

  lemma TrimTwice(s: string)
    ensures Trim(Trim(s)) == Trim(s)
  {
    TrimIsTrimmed(s);
    TrimFixesTrimmed(Trim(s));
  }

  /** Two non-blank trimmed texts around a colon are trimmed. */
  lemma TrimmedPair(a: string, b: string)
    requires a != "" && b != "" && Trimmed(a) && Trimmed(b)
    ensures Trimmed(a + ":" + b)
  {
  }

  lemma PartitionKeyTrimmed(tenantId: string, name: string, id: string)
    ensures Trimmed(JobPartitionKey(tenantId, name, id))
  {
    TrimIsTrimmed(tenantId);
    TrimIsTrimmed(name);
    TrimIsTrimmed(id);
    if Trim(tenantId) != "" && Trim(name) != "" {
      TrimmedPair(Trim(tenantId), Trim(name));
    } else if Trim(name) != "" && Trim(id) != "" {
      TrimmedPair(Trim(name), Trim(id));
    }
  }

  lemma KeyTrimmed(j: Job)
    ensures Trim(Key(j)) == Key(j)
  {
    TrimIsTrimmed(j.partitionKey);
    PartitionKeyTrimmed(j.tenantId, j.name, j.id);
    TrimFixesTrimmed(Key(j));
  }

  lemma GetOptional(h: map<string, string>, name: string, value: string, k: string)
    ensures Get(WithOptional(h, name, value), k) == if k == name && Trim(value) != "" then Trim(value) else Get(h, k)
  {
  }

  lemma GetFallback(h: map<string, string>, name: string, value: string, k: string)
    ensures k != name || Trim(value) == "" ==> Get(WithFallback(h, name, value), k) == Get(h, k)
  {
  }

  /** The three layers, read under a name that the layers above do not touch. */
  lemma GetLayers(j: Job, f: TimeFormat, now: Time, k: string)
    ensures k != HEADER_TENANT && (k != TENANT || Trim(j.tenantId) == "") ==> Get(Tenanted(j, f, now), k) == Get(Fixed(j, f, now), k)
    ensures k != HEADER_CORRELATION && (k != CORRELATION || Trim(j.correlationId) == "") ==>
              Get(Correlated(j, f, now), k) == Get(Tenanted(j, f, now), k)
    ensures k != HEADER_IDEMPOTENCY ==> Get(Headers(j, f, now), k) == Get(Correlated(j, f, now), k)
  {
    GetOptional(Fixed(j, f, now), HEADER_TENANT, j.tenantId, k);
    GetFallback(WithOptional(Fixed(j, f, now), HEADER_TENANT, j.tenantId), TENANT, j.tenantId, k);
    GetOptional(Tenanted(j, f, now), HEADER_CORRELATION, j.correlationId, k);
    GetFallback(WithOptional(Tenanted(j, f, now), HEADER_CORRELATION, j.correlationId), CORRELATION, j.correlationId, k);
    GetOptional(Correlated(j, f, now), HEADER_IDEMPOTENCY, j.idempotencyKey, k);
  }

  lemma FixedKeepsOthers(j: Job, f: TimeFormat, now: Time, k: string)
    requires k in {HEADER_TENANT, TENANT, HEADER_CORRELATION, CORRELATION, HEADER_IDEMPOTENCY}
    ensures Get(Fixed(j, f, now), k) == Get(j.headers, k)
  {
    assert k !in FixedHeaders(j, f, now);
  }

  lemma FixedHeaderKept(j: Job, f: TimeFormat, now: Time, k: string)
    requires k in {HEADER_NAME, HEADER_QUEUE, HEADER_RUN_AT, HEADER_ATTEMPT, HEADER_MAX_ATTEMPTS}
    ensures k in FixedHeaders(j, f, now) && Get(Headers(j, f, now), k) == FixedHeaders(j, f, now)[k]
  {
    GetLayers(j, f, now, k);
  }

  /** What the message says under each name the decoder reads. */
  lemma HeaderValues(j: Job, f: TimeFormat, now: Time)
    ensures var h := Headers(j, f, now);
      && Get(h, HEADER_NAME) == Trim(j.name) && Get(h, HEADER_QUEUE) == Trim(j.queue)
      && Get(h, HEADER_RUN_AT) == f.format(RunAt(j, now))
      && Get(h, HEADER_ATTEMPT) == Itoa(j.attempt) && Get(h, HEADER_MAX_ATTEMPTS) == Itoa(j.maxAttempts)
  {
    FixedHeaderKept(j, f, now, HEADER_NAME);
    FixedHeaderKept(j, f, now, HEADER_QUEUE);
    FixedHeaderKept(j, f, now, HEADER_RUN_AT);
    FixedHeaderKept(j, f, now, HEADER_ATTEMPT);
    FixedHeaderKept(j, f, now, HEADER_MAX_ATTEMPTS);
  }

  lemma TenantHeaders(j: Job, f: TimeFormat, now: Time)
    ensures var h := Headers(j, f, now);
      && Get(h, HEADER_TENANT) == (if Trim(j.tenantId) != "" then Trim(j.tenantId) else Get(j.headers, HEADER_TENANT))
      && (Trim(j.tenantId) == "" ==> Get(h, TENANT) == Get(j.headers, TENANT))
  {
    GetLayers(j, f, now, HEADER_TENANT);
    GetLayers(j, f, now, TENANT);
    FixedKeepsOthers(j, f, now, HEADER_TENANT);
    FixedKeepsOthers(j, f, now, TENANT);
    GetOptional(Fixed(j, f, now), HEADER_TENANT, j.tenantId, HEADER_TENANT);
    GetFallback(WithOptional(Fixed(j, f, now), HEADER_TENANT, j.tenantId), TENANT, j.tenantId, HEADER_TENANT);
  }

  lemma CorrelationHeaders(j: Job, f: TimeFormat, now: Time)
    ensures var h := Headers(j, f, now);
      && Get(h, HEADER_CORRELATION) == (if Trim(j.correlationId) != "" then Trim(j.correlationId) else Get(j.headers, HEADER_CORRELATION))
      && (Trim(j.correlationId) == "" ==> Get(h, CORRELATION) == Get(j.headers, CORRELATION))
  {
    GetLayers(j, f, now, HEADER_CORRELATION);
    GetLayers(j, f, now, CORRELATION);
    FixedKeepsOthers(j, f, now, HEADER_CORRELATION);
    FixedKeepsOthers(j, f, now, CORRELATION);
    GetOptional(Tenanted(j, f, now), HEADER_CORRELATION, j.correlationId, HEADER_CORRELATION);
    GetFallback(WithOptional(Tenanted(j, f, now), HEADER_CORRELATION, j.correlationId), CORRELATION, j.correlationId, HEADER_CORRELATION);
  }

  lemma IdempotencyHeader(j: Job, f: TimeFormat, now: Time)
    ensures Get(Headers(j, f, now), HEADER_IDEMPOTENCY)
         == if Trim(j.idempotencyKey) != "" then Trim(j.idempotencyKey) else Get(j.headers, HEADER_IDEMPOTENCY)
  {
    GetLayers(j, f, now, HEADER_IDEMPOTENCY);
    FixedKeepsOthers(j, f, now, HEADER_IDEMPOTENCY);
    GetOptional(Correlated(j, f, now), HEADER_IDEMPOTENCY, j.idempotencyKey, HEADER_IDEMPOTENCY);
  }

  lemma IntHeaderReadBack(headers: map<string, string>, name: string, n: int)
    requires MIN_INT64 <= n <= MAX_INT64 && n >= 0 && Get(headers, name) == Itoa(n)
    ensures IntHeader(headers, name) == Some(n)
  {
    ItoaTrimmed(n);
    TrimFixesTrimmed(Itoa(n));
    ParseIntOfItoa(n);
  }

  lemma ItoaTrimmed(n: int)
    requires n >= 0
    ensures Itoa(n) != "" && Trimmed(Itoa(n))
  {
  }

  /** Decoding the message of a valid job yields that job, normalised: the identity, name, queue,
      payload, tenant, correlation id, idempotency key, times, counters, key and content type. */
  lemma RoundTrip(j: Job, fallback: string, f: TimeFormat, now: Time, later: Time)
    requires Valid(j) && Faithful(f, RunAt(j, now)) && now != 0 && j.attempt <= MAX_INT64 && j.maxAttempts <= MAX_INT64
    ensures Encoded(j, f, now).Ok?
    ensures Decoded(Encoded(j, f, now).value, fallback, f, later) == Ok(Normal(j, f, now))
  {
    HeadersReadBack(j, f, now);
    DecodesToNormal(j, fallback, f, now, later);
    NormalValid(j, f, now);
    TrimTwice(j.id);
  }

  lemma NormalValid(j: Job, f: TimeFormat, now: Time)
    requires Valid(j)
    ensures Valid(Normal(j, f, now))
  {
    TrimTwice(j.id);
    TrimTwice(j.name);
    TrimTwice(j.queue);
  }

  lemma HeadersReadBack(j: Job, f: TimeFormat, now: Time)
    requires Valid(j) && Faithful(f, RunAt(j, now)) && j.attempt <= MAX_INT64 && j.maxAttempts <= MAX_INT64
    ensures var h := Headers(j, f, now);
      TimeHeader(h, f) == Some(RunAt(j, now)) && IntHeader(h, HEADER_ATTEMPT) == Some(j.attempt)
      && IntHeader(h, HEADER_MAX_ATTEMPTS) == Some(j.maxAttempts)
  {
    HeaderValues(j, f, now);
    TrimFixesTrimmed(f.format(RunAt(j, now)));
    IntHeaderReadBack(Headers(j, f, now), HEADER_ATTEMPT, j.attempt);
    IntHeaderReadBack(Headers(j, f, now), HEADER_MAX_ATTEMPTS, j.maxAttempts);
  }

  lemma DecodesToNormal(j: Job, fallback: string, f: TimeFormat, now: Time, later: Time)
    requires Valid(j) && now != 0
    ensures DecodedJob(Encoded(j, f, now).value, fallback, later, RunAt(j, now), j.attempt, j.maxAttempts) == Normal(j, f, now)
  {
    var m := Encoded(j, f, now).value;
    HeaderValues(j, f, now);
    TrimTwice(j.id);
    TrimTwice(j.name);
    TrimTwice(j.queue);
    TrimTwice(j.contentType);
    TrimFixesTrimmed(DEFAULT_CONTENT_TYPE);
    KeyTrimmed(j);
    FieldsRestored(j, f, now);
  }

  lemma FieldsRestored(j: Job, f: TimeFormat, now: Time)
    ensures var h := Headers(j, f, now);
      && Trim(FirstNonEmpty(Get(h, HEADER_TENANT), Get(h, TENANT))) == Restored(j.tenantId, j.headers, HEADER_TENANT, TENANT)
      && Trim(FirstNonEmpty(Get(h, HEADER_CORRELATION), Get(h, CORRELATION))) == Restored(j.correlationId, j.headers, HEADER_CORRELATION, CORRELATION)
      && Trim(Get(h, HEADER_IDEMPOTENCY)) == Restored(j.idempotencyKey, j.headers, HEADER_IDEMPOTENCY, HEADER_IDEMPOTENCY)
  {
    TenantHeaders(j, f, now);
    CorrelationHeaders(j, f, now);
    IdempotencyHeader(j, f, now);
    TrimTwice(j.tenantId);
    TrimTwice(j.correlationId);
    TrimTwice(j.idempotencyKey);
    assert Trim("") == "";
  }

  /** For a job with trimmed fields, set times and no reserved names among its own headers, the round
      trip changes nothing but the headers, an empty partition key and an empty content type. */
  lemma RoundTripOfCleanJob(j: Job, fallback: string, f: TimeFormat, now: Time, later: Time)
    requires Valid(j) && Faithful(f, RunAt(j, now)) && now != 0 && j.attempt <= MAX_INT64 && j.maxAttempts <= MAX_INT64
    requires Trimmed(j.id) && Trimmed(j.name) && Trimmed(j.queue) && Trimmed(j.contentType) && Trimmed(j.tenantId)
    requires Trimmed(j.correlationId) && Trimmed(j.idempotencyKey) && Trimmed(j.partitionKey)
    requires j.runAt != 0 && j.createdAt != 0 && j.headers.Keys !! RESERVED
    ensures var r := Decoded(Encoded(j, f, now).value, fallback, f, later);
      r == Ok(j.(headers := Headers(j, f, now),
                 contentType := if j.contentType == "" then DEFAULT_CONTENT_TYPE else j.contentType,
                 partitionKey := if j.partitionKey == "" then JobPartitionKey(j.tenantId, j.name, j.id) else j.partitionKey))
  {
    RoundTrip(j, fallback, f, now, later);
    TrimFixesTrimmed(j.id);
    TrimFixesTrimmed(j.name);
    TrimFixesTrimmed(j.queue);
    CleanFields(j);
  }

  lemma CleanFields(j: Job)
    requires Trimmed(j.contentType) && Trimmed(j.tenantId) && Trimmed(j.correlationId)
    requires Trimmed(j.idempotencyKey) && Trimmed(j.partitionKey) && j.headers.Keys !! RESERVED
    ensures Restored(j.tenantId, j.headers, HEADER_TENANT, TENANT) == j.tenantId
    ensures Restored(j.correlationId, j.headers, HEADER_CORRELATION, CORRELATION) == j.correlationId
    ensures Restored(j.idempotencyKey, j.headers, HEADER_IDEMPOTENCY, HEADER_IDEMPOTENCY) == j.idempotencyKey
    ensures Trim(j.contentType) == j.contentType && Trim(j.partitionKey) == j.partitionKey
  {
    TrimFixesTrimmed(j.contentType);
    TrimFixesTrimmed(j.tenantId);
    TrimFixesTrimmed(j.correlationId);
    TrimFixesTrimmed(j.idempotencyKey);
    TrimFixesTrimmed(j.partitionKey);
    assert HEADER_TENANT in RESERVED && TENANT in RESERVED && HEADER_CORRELATION in RESERVED && CORRELATION in RESERVED;
    assert HEADER_IDEMPOTENCY in RESERVED;
    assert Trim("") == "";
  }

  /** Headers of the job that are not the codec's own pass through unchanged. */
  lemma OwnHeadersKept(j: Job, f: TimeFormat, now: Time, k: string)
    requires k !in RESERVED
    ensures Get(Headers(j, f, now), k) == Get(j.headers, k)
  {
    assert k !in FixedHeaders(j, f, now);
    GetLayers(j, f, now, k);
  }

  lemma CompatibilityHeaders(j: Job, f: TimeFormat, now: Time)
    ensures var h := Headers(j, f, now);
      && Get(h, TENANT) == (if Get(j.headers, TENANT) != "" then Get(j.headers, TENANT) else Trim(j.tenantId))
      && Get(h, CORRELATION) == (if Get(j.headers, CORRELATION) != "" then Get(j.headers, CORRELATION) else Trim(j.correlationId))
      && Get(h, HEADER_ID) == Trim(j.id)
  {
    GetLayers(j, f, now, TENANT);
    GetLayers(j, f, now, CORRELATION);
    GetLayers(j, f, now, HEADER_ID);
    FixedKeepsOthers(j, f, now, TENANT);
    FixedKeepsOthers(j, f, now, CORRELATION);
    GetOptional(Fixed(j, f, now), HEADER_TENANT, j.tenantId, TENANT);
    GetOptional(Tenanted(j, f, now), HEADER_CORRELATION, j.correlationId, CORRELATION);
  }

  /** Everything the headers of the message say: the job's own fields under the codec's names, the
      tenant and correlation id also under the names other consumers read unless the job's headers have
      them already, and otherwise the headers of the job. */
  lemma HeadersExactly(j: Job, f: TimeFormat, now: Time, k: string)
    ensures var h, created := Headers(j, f, now), if j.createdAt != 0 then j.createdAt else now;
      && Get(h, "job_id") == Trim(j.id) && Get(h, "job_name") == Trim(j.name) && Get(h, "job_queue") == Trim(j.queue)
      && Get(h, "job_run_at") == f.format(if j.runAt != 0 then j.runAt else created)
      && Get(h, "job_attempt") == Itoa(j.attempt) && Get(h, "job_max_attempts") == Itoa(j.maxAttempts)
      && (Trim(j.tenantId) != "" ==> Get(h, "job_tenant_id") == Trim(j.tenantId))
      && (Trim(j.correlationId) != "" ==> Get(h, "job_correlation_id") == Trim(j.correlationId))
      && (Trim(j.idempotencyKey) != "" ==> Get(h, "job_idempotency_key") == Trim(j.idempotencyKey))
      && Get(h, "tenant_id") == (if Get(j.headers, "tenant_id") != "" then Get(j.headers, "tenant_id") else Trim(j.tenantId))
      && Get(h, "correlation_id") == (if Get(j.headers, "correlation_id") != "" then Get(j.headers, "correlation_id") else Trim(j.correlationId))
    ensures k !in RESERVED ==> Get(Headers(j, f, now), k) == Get(j.headers, k)
  {
    HeaderValues(j, f, now);
    TenantHeaders(j, f, now);
    CorrelationHeaders(j, f, now);
    IdempotencyHeader(j, f, now);
    CompatibilityHeaders(j, f, now);
    if k !in RESERVED {
      OwnHeadersKept(j, f, now, k);
    }
  }

  /** Jobs of one tenant and one name share a partition, whatever their ids. */
  lemma TenantJobsSharePartition(j: Job, k: Job)
    requires Valid(j) && Valid(k) && Trim(j.partitionKey) == "" && Trim(k.partitionKey) == ""
    requires Trim(j.tenantId) == Trim(k.tenantId) != "" && Trim(j.name) == Trim(k.name)
    ensures Key(j) == Key(k)
  {
  }

  /** Jobs with a tenant share a partition exactly when tenant and name agree, whatever their ids, as
      long as tenants hold no colon. */
  lemma TenantPartitions(j: Job, k: Job)
    requires Valid(j) && Valid(k) && Trim(j.partitionKey) == "" && Trim(k.partitionKey) == ""
    requires Trim(j.tenantId) != "" && Trim(k.tenantId) != "" && ':' !in Trim(j.tenantId) && ':' !in Trim(k.tenantId)
    ensures Key(j) == Key(k) <==> Trim(j.tenantId) == Trim(k.tenantId) && Trim(j.name) == Trim(k.name)
  {
    ColonCuts(Trim(j.tenantId), Trim(j.name));
    ColonCuts(Trim(k.tenantId), Trim(k.name));
  }

  /** Without a tenant every job has its own partition: the key determines name and id when names hold
      no colon. */
  lemma UntenantedJobsApart(j: Job, k: Job)
    requires Valid(j) && Valid(k) && Trim(j.partitionKey) == "" && Trim(k.partitionKey) == ""
    requires Trim(j.tenantId) == "" && Trim(k.tenantId) == "" && ':' !in Trim(j.name) && ':' !in Trim(k.name)
    requires Key(j) == Key(k)
    ensures Trim(j.name) == Trim(k.name) && Trim(j.id) == Trim(k.id)
  {
    ColonCuts(Trim(j.name), Trim(j.id));
    ColonCuts(Trim(k.name), Trim(k.id));
  }

  lemma ColonCuts(name: string, id: string)
    requires ':' !in name
    ensures var key := name + ":" + id; var i := IndexOf(key, ':'); i < |key| && key[..i] == name && key[i + 1..] == id
  {
    var key := name + ":" + id;
    assert key[..|name|] == name && key[|name|] == ':';
    IndexOfUnique(key, ':', |name|);
  }
}
