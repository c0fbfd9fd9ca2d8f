/** The event consumer's retry loop: attempts through a circuit breaker of its own, then exactly one
    ending. Handler results, clock readings, the context and the answers of the quarantine sink and
    the producer are parameters. */
module RetryLoop {
  import opened Text
  import opened RetryPolicy
  import B = Breaker

  const SECOND: nat := 1_000_000_000

  datatype RetryDLQConfig = RetryDLQConfig(
    maxRetries: int, initialBackoff: int, maxBackoff: int, attemptTimeout: int, breakerFailures: int, breakerReset: int,
    dlqTopicSuffix: string)

  function OrDefault(x: int, d: int): int {
    if x <= 0 then d else x
  }

  /** `normalize`: unset and negative values become the defaults, so that every limit is positive. */
  function Normalize(c: RetryDLQConfig): (n: RetryDLQConfig)
    ensures n.maxRetries > 0 && n.initialBackoff > 0 && n.maxBackoff > 0 && n.attemptTimeout > 0
    ensures n.breakerFailures > 0 && n.breakerReset > 0 && n.dlqTopicSuffix != ""
    ensures n.maxRetries == if c.maxRetries > 0 then c.maxRetries else 5
    ensures n.initialBackoff == if c.initialBackoff > 0 then c.initialBackoff else 1_000_000_000
    ensures n.maxBackoff == if c.maxBackoff > 0 then c.maxBackoff else 60_000_000_000
    ensures n.attemptTimeout == if c.attemptTimeout > 0 then c.attemptTimeout else 30_000_000_000
    ensures n.breakerFailures == if c.breakerFailures > 0 then c.breakerFailures else 5
    ensures n.breakerReset == if c.breakerReset > 0 then c.breakerReset else 30_000_000_000
    ensures n.dlqTopicSuffix == if c.dlqTopicSuffix != "" then c.dlqTopicSuffix else ".dlq"
  {
    RetryDLQConfig(
      OrDefault(if c.maxRetries < 0 then 0 else c.maxRetries, 5), OrDefault(c.initialBackoff, SECOND),
      OrDefault(c.maxBackoff, 60 * SECOND), OrDefault(c.attemptTimeout, 30 * SECOND), OrDefault(c.breakerFailures, 5),
      OrDefault(c.breakerReset, 30 * SECOND), if c.dlqTopicSuffix == "" then ".dlq" else c.dlqTopicSuffix)
  }

  function BreakerConfig(c: RetryDLQConfig): B.Config {
    B.Config(c.breakerFailures, c.breakerReset)
  }

  datatype Message = Message(id: string, key: string, value: seq<bv8>, headers: map<string, string>)

  datatype Failure = BreakerOpen | HandlerError(text: string)

  function Reason(f: Failure): string {
    if f.BreakerOpen? then "circuit breaker is open" else f.text
  }

  /** What the surroundings do at attempt k: when the breaker is asked, when and how the handler ends
      if it is started, and whether the context is done before the delay after the attempt is over. */
  datatype Env = Env(asked: nat -> nat, ended: nat -> nat, error: nat -> Option<string>, cancelled: nat -> bool)

  /** One iteration: the breaker refused it, or the handler was started. */
  datatype Attempt = Skipped(asked: nat) | Ran(asked: nat, ended: nat, error: Option<string>)

  function FailureOf(a: Attempt): Option<Failure> {
    match a
    case Skipped(_) => Some(BreakerOpen)
    case Ran(_, _, None) => None
    case Ran(_, _, Some(e)) => Some(HandlerError(e))
  }

  /** The breaker a log of attempts leaves behind. */
  function BreakerAfter(c: B.Config, log: seq<Attempt>): B.Breaker {
    if log == [] then B.New()
    else
      var front, last := log[..|log| - 1], log[|log| - 1];
      match last
      case Skipped(_) => BreakerAfter(c, front)
      case Ran(asked, ended, error) => B.After(c, BreakerAfter(c, front), asked, error.None?, ended)
  }

  /** What attempt |log| + 1 is, after the attempts in the log. */
  function NextAttempt(c: B.Config, env: Env, log: seq<Attempt>): Attempt {
    var k := |log| + 1;
    if B.Cooling(c, BreakerAfter(c, log), env.asked(k)) then Skipped(env.asked(k))
    else Ran(env.asked(k), env.ended(k), env.error(k))
  }

  /** Every attempt goes through the breaker: the handler is started exactly when the breaker, as the
      earlier attempts left it, is not open and unexpired. */
  ghost predicate ThroughBreaker(c: B.Config, env: Env, log: seq<Attempt>) {
    forall i :: 0 <= i < |log| ==> log[i] == NextAttempt(c, env, log[..i])
  }

  /** The handler was not started, or it returned an error. */
  predicate Unsuccessful(a: Attempt) {
    a.Skipped? || a.error.Some?
  }

  /** The attempt was not successful, and the decider, asked with dead letters enabled and no quarantine,
      wants a delayed retry. */
  predicate TriedAgain(decide: Decider, classify: Failure -> Classification, a: Attempt, k: int, limit: int) {
    match a
    case Skipped(_) => decide(classify(BreakerOpen), k, limit, Policy(deadLetter := true, quarantine := false)) == DelayedRetry
    case Ran(_, _, None) => false
    case Ran(_, _, Some(e)) => decide(classify(HandlerError(e)), k, limit, Policy(deadLetter := true, quarantine := false)) == DelayedRetry
  }

  predicate AllTriedAgain(decide: Decider, classify: Failure -> Classification, env: Env, log: seq<Attempt>, limit: int) {
    forall i :: 0 <= i < |log| - 1 ==> TriedAgain(decide, classify, log[i], i + 1, limit) && !env.cancelled(i + 1)
  }

  datatype Plan = Plan(decide: Decider, classify: Failure -> Classification, limit: int)

  predicate WantsRetry(p: Plan, a: Attempt, k: int) {
    FailureOf(a).Some? && p.decide(p.classify(FailureOf(a).value), k, p.limit, Policy(true, false)) == DelayedRetry
  }

  /** The attempts before the last one failed, asked for a retry and were not cut short. */
  ghost predicate KeptGoing(p: Plan, env: Env, log: seq<Attempt>) {
    forall i :: 0 <= i < |log| ==> WantsRetry(p, log[i], i + 1) && !env.cancelled(i + 1)
  }

  datatype DLQPayload = DLQPayload(
    originalTopic: string, originalId: string, originalKey: string, originalBody: seq<bv8>, originalHeaders: map<string, string>,
    failureReason: string, attemptCount: int)

  datatype Effect =
    | Quarantine(key: string, reason: string, attempt: int)
    | Publish(topic: string, id: string, key: string, payload: DLQPayload)

  datatype Ending = Processed | ContextDone | QuarantineEnd(ok: bool) | DeadLetterEnd(ok: bool)

  function DeadLetter(topic: string, suffix: string, m: Message, f: Failure, attempts: int): Effect {
    Publish(topic + suffix, m.id, m.key, DLQPayload(topic, m.id, m.key, m.value, m.headers, Reason(f), attempts))
  }

  /** The one ending that goes with a log, and what it sends. */
  ghost predicate EndsWith(p: Plan, env: Env, topic: string, suffix: string, m: Message, sink: Option<bool>, publishes: bool,
                           log: seq<Attempt>, ending: Ending, effects: seq<Effect>)
    requires log != []
  {
    var n, last := |log|, log[|log| - 1];
    match FailureOf(last)
    case None => ending == Processed && effects == []
    case Some(f) =>
      if WantsRetry(p, last, n) && env.cancelled(n) then ending == ContextDone && effects == []
      else
        && (n == p.limit || !WantsRetry(p, last, n))
        && if p.decide(p.classify(f), n, p.limit, Policy(true, sink.Some?)) == Quarantined
           then sink.Some? && ending == QuarantineEnd(sink.value) && effects == [Quarantine(topic + ":" + m.id, LastError(last), n)]
           else
             && ending == DeadLetterEnd(publishes) && |effects| == 1 && effects[0].Publish?
             && effects[0].topic == topic + suffix && effects[0].id == m.id && effects[0].key == m.key
             && IsDeadLetterOf(effects[0].payload, topic, m, last, n)
  }

  /** What a failed attempt reports: the breaker's refusal, or what the handler returned. */
  function LastError(a: Attempt): string {
    match a
    case Skipped(_) => "circuit breaker is open"
    case Ran(_, _, Some(e)) => e
    case Ran(_, _, None) => ""
  }

  /** The dead letter carries the whole message, where it came from, the last failure and the number of
      attempts. */
  predicate IsDeadLetterOf(p: DLQPayload, topic: string, m: Message, last: Attempt, attempts: int) {
    && p.originalTopic == topic && p.originalId == m.id && p.originalKey == m.key
    && p.originalBody == m.value && p.originalHeaders == m.headers
    && p.failureReason == LastError(last) && p.attemptCount == attempts
  }

  /** One attempt through the breaker that the log left behind. */
  method RunAttempt(breaker: B.CircuitBreaker, env: Env, log: seq<Attempt>) returns (entry: Attempt)
    requires breaker.View() == BreakerAfter(breaker.Settings(), log)
    modifies breaker
    ensures entry == NextAttempt(breaker.Settings(), env, log)
    ensures breaker.View() == BreakerAfter(breaker.Settings(), log + [entry])
    ensures ThroughBreaker(breaker.Settings(), env, log) ==> ThroughBreaker(breaker.Settings(), env, log + [entry])
  {
    var k := |log| + 1;
    var error := env.error(k);
    var r := breaker.Execute(env.asked(k), error.None?, env.ended(k));
    entry := if r.Refused? then Skipped(env.asked(k)) else Ran(env.asked(k), env.ended(k), error);
    AttemptRecorded(breaker.Settings(), env, log, entry);
  }

  /** The attempts. `stopped` says that the context ended the loop. */
  method RunAttempts(c: B.Config, p: Plan, env: Env) returns (log: seq<Attempt>, stopped: bool)
    requires p.limit >= 1
    ensures 1 <= |log| <= p.limit
    ensures ThroughBreaker(c, env, log) && KeptGoing(p, env, log[..|log| - 1])
    ensures stopped <==> WantsRetry(p, log[|log| - 1], |log|) && env.cancelled(|log|)
    ensures |log| == p.limit || stopped || !WantsRetry(p, log[|log| - 1], |log|)
  {
    var breaker := new B.CircuitBreaker(c.maxFailures, c.timeout);
    log := [];
    stopped := false;
    var attempt := 1;
    while attempt <= p.limit
      invariant 1 <= attempt <= p.limit + 1 && |log| == attempt - 1 && !stopped
      invariant breaker.Settings() == c && breaker.View() == BreakerAfter(c, log)
      invariant ThroughBreaker(c, env, log) && KeptGoing(p, env, log)
      invariant attempt > 1 ==> KeptGoing(p, env, log[..|log| - 1])
    {
      var entry := RunAttempt(breaker, env, log);
      KeptGoingSnoc(p, env, log, entry);
      log := log + [entry];
      if !WantsRetry(p, entry, attempt) {
        return;
      }
      if env.cancelled(attempt) {
        stopped := true;
        return;
      }
      attempt := attempt + 1;
    }
  }

  lemma KeptGoingSnoc(p: Plan, env: Env, log: seq<Attempt>, a: Attempt)
    requires KeptGoing(p, env, log)
    ensures KeptGoing(p, env, (log + [a])[..|log|])
    ensures WantsRetry(p, a, |log| + 1) && !env.cancelled(|log| + 1) ==> KeptGoing(p, env, log + [a])
  {
    assert (log + [a])[..|log|] == log;
  }

  lemma AttemptRecorded(c: B.Config, env: Env, log: seq<Attempt>, a: Attempt)
    requires a == NextAttempt(c, env, log)
    ensures ThroughBreaker(c, env, log) ==> ThroughBreaker(c, env, log + [a])
    ensures BreakerAfter(c, log + [a])
         == B.After(c, BreakerAfter(c, log), env.asked(|log| + 1), env.error(|log| + 1).None?, env.ended(|log| + 1))
  {
    var longer := log + [a];
    assert longer[..|log|] == log;
    if ThroughBreaker(c, env, log) {
      forall i | 0 <= i < |longer| ensures longer[i] == NextAttempt(c, env, longer[..i]) {
        assert i < |log| ==> longer[..i] == log[..i];
      }
    }
  }

  /** ConsumeWithRetry: at most MaxRetries + 1 attempts, each through the breaker, none after a
      success, and one ending: success, context done, one quarantine attempt or one dead letter whose
      attempt count is the number of iterations. Without a sink the decider must not quarantine, as the
      source would call a sink that is not there. */
  method ConsumeWithRetry(topic: string, m: Message, config: RetryDLQConfig, env: Env, decide: Decider,
                          classify: Failure -> Classification, sink: Option<bool>, publishes: bool)
    returns (ending: Ending, log: seq<Attempt>, effects: seq<Effect>)
    requires sink.None? ==> forall kind, k, n :: decide(kind, k, n, Policy(true, false)) != Quarantined
    ensures 1 <= |log| <= Normalize(config).maxRetries + 1
    ensures ThroughBreaker(B.Config(Normalize(config).breakerFailures, Normalize(config).breakerReset), env, log)
    ensures AllTriedAgain(decide, classify, env, log, Normalize(config).maxRetries + 1)
    ensures ending == Processed <==> !Unsuccessful(log[|log| - 1])
    ensures var p := Plan(decide, classify, Normalize(config).maxRetries + 1);
      && KeptGoing(p, env, log[..|log| - 1])
      && EndsWith(p, env, topic, Normalize(config).dlqTopicSuffix, m, sink, publishes, log, ending, effects)
  {
    var c := Normalize(config);
    var p := Plan(decide, classify, c.maxRetries + 1);
    var stopped;
    log, stopped := RunAttempts(BreakerConfig(c), p, env);
    EarlierAttemptsFailed(p, env, log);
    ending, effects := Finish(p, env, topic, c.dlqTopicSuffix, m, sink, publishes, log, stopped);
  }

  /** What follows the attempts: the final decision, and the quarantine record or the dead letter. */
  method Finish(p: Plan, ghost env: Env, topic: string, suffix: string, m: Message, sink: Option<bool>, publishes: bool,
                log: seq<Attempt>, stopped: bool) returns (ending: Ending, effects: seq<Effect>)
    requires log != [] && (stopped <==> WantsRetry(p, log[|log| - 1], |log|) && env.cancelled(|log|))
    requires |log| == p.limit || stopped || !WantsRetry(p, log[|log| - 1], |log|)
    requires sink.None? ==> forall kind, k, n :: p.decide(kind, k, n, Policy(true, false)) != Quarantined
    ensures EndsWith(p, env, topic, suffix, m, sink, publishes, log, ending, effects)
  {
    var attempts := |log|;
    var failure := FailureOf(log[attempts - 1]);
    if failure.None? {
      return Processed, [];
    }
    if stopped {
      return ContextDone, [];
    }
    var d := p.decide(p.classify(failure.value), attempts, p.limit, Policy(true, sink.Some?));
    if d == Quarantined {
      effects := [Quarantine(topic + ":" + m.id, Reason(failure.value), attempts)];
      ending := QuarantineEnd(sink.value);
    } else {
      effects := [DeadLetter(topic, suffix, m, failure.value, attempts)];
      ending := DeadLetterEnd(publishes);
    }
  }

  lemma EarlierAttemptsFailed(p: Plan, env: Env, log: seq<Attempt>)
    requires log != [] && KeptGoing(p, env, log[..|log| - 1])
    ensures AllTriedAgain(p.decide, p.classify, env, log, p.limit)
  {
    forall i | 0 <= i < |log| - 1 ensures TriedAgain(p.decide, p.classify, log[i], i + 1, p.limit) && !env.cancelled(i + 1) {
      assert log[..|log| - 1][i] == log[i];
    }
  }

  /** The class of the failure of an attempt that was not successful. */
  function ClassOf(classify: Failure -> Classification, a: Attempt): Classification {
    match a
    case Skipped(_) => classify(BreakerOpen)
    case Ran(_, _, Some(e)) => classify(HandlerError(e))
    case Ran(_, _, None) => RetryableClass
  }

  /** Every attempt before the last failed with a retryable error, and the context was not cancelled after
      it. */
  predicate RetriedSoFar(classify: Failure -> Classification, env: Env, log: seq<Attempt>) {
    forall i :: 0 <= i < |log| - 1 ==>
      Unsuccessful(log[i]) && ClassOf(classify, log[i]).RetryableClass? && !env.cancelled(i + 1)
  }

  /** With the shipped decider the attempts go on exactly after retryable failures, until one succeeds,
      the context is cancelled or the limit is reached. A message is quarantined exactly if there is a
      sink and its last failure is not terminal; otherwise it goes to the dead-letter topic, whole. */
  method ConsumeWithDecide(topic: string, m: Message, config: RetryDLQConfig, env: Env,
                           classify: Failure -> Classification, sink: Option<bool>, publishes: bool)
    returns (ending: Ending, log: seq<Attempt>, effects: seq<Effect>)
    ensures 1 <= |log| <= Normalize(config).maxRetries + 1
    ensures RetriedSoFar(classify, env, log)
    ensures var n, last, limit := |log|, log[|log| - 1], Normalize(config).maxRetries + 1;
            var again := Unsuccessful(last) && n < limit && ClassOf(classify, last).RetryableClass?;
      && (ending == Processed <==> !Unsuccessful(last))
      && (again ==> ending == ContextDone && env.cancelled(n))
      && (ending == ContextDone ==> again)
      && (Unsuccessful(last) && !again ==>
            && (sink.Some? && !ClassOf(classify, last).TerminalClass? ==>
                  ending == QuarantineEnd(sink.value) && effects == [Quarantine(topic + ":" + m.id, LastError(last), n)])
            && (sink.None? || ClassOf(classify, last).TerminalClass? ==>
                  ending == DeadLetterEnd(publishes) && |effects| == 1 && effects[0].Publish?))
    ensures ending.DeadLetterEnd? ==>
      && effects[0].topic == topic + (if config.dlqTopicSuffix == "" then ".dlq" else config.dlqTopicSuffix)
      && effects[0].id == m.id && effects[0].key == m.key
      && IsDeadLetterOf(effects[0].payload, topic, m, log[|log| - 1], |log|)
    ensures ending == Processed || ending == ContextDone ==> effects == []
  {
    ending, log, effects := ConsumeWithRetry(topic, m, config, env, Decide, classify, sink, publishes);
    KeptGoingRetryable(classify, env, log, Normalize(config).maxRetries + 1);
    EndingOfDecide(classify, env, topic, Normalize(config).dlqTopicSuffix, m, sink, publishes, Normalize(config).maxRetries + 1, log, ending, effects);
  }

  /** What the ending is under the shipped decider, by the class of the last failure. */
  lemma EndingOfDecide(classify: Failure -> Classification, env: Env, topic: string, suffix: string, m: Message, sink: Option<bool>,
                       publishes: bool, limit: int, log: seq<Attempt>, ending: Ending, effects: seq<Effect>)
    requires 1 <= |log| <= limit
    requires EndsWith(Plan(Decide, classify, limit), env, topic, suffix, m, sink, publishes, log, ending, effects)
    ensures var n, last := |log|, log[|log| - 1];
            var again := Unsuccessful(last) && n < limit && ClassOf(classify, last).RetryableClass?;
      && (ending == Processed <==> !Unsuccessful(last))
      && (again ==> ending == ContextDone && env.cancelled(n))
      && (ending == ContextDone ==> again)
      && (Unsuccessful(last) && !again ==>
            && (sink.Some? && !ClassOf(classify, last).TerminalClass? ==>
                  ending == QuarantineEnd(sink.value) && effects == [Quarantine(topic + ":" + m.id, LastError(last), n)])
            && (sink.None? || ClassOf(classify, last).TerminalClass? ==>
                  ending == DeadLetterEnd(publishes) && |effects| == 1 && effects[0].Publish?))
      && (ending == Processed || ending == ContextDone ==> effects == [])
      && (ending.DeadLetterEnd? ==>
            && |effects| == 1 && effects[0].Publish? && effects[0].topic == topic + suffix && effects[0].id == m.id
            && effects[0].key == m.key && IsDeadLetterOf(effects[0].payload, topic, m, last, n))
  {
  }

  lemma KeptGoingRetryable(classify: Failure -> Classification, env: Env, log: seq<Attempt>, limit: int)
    requires log != [] && KeptGoing(Plan(Decide, classify, limit), env, log[..|log| - 1])
    ensures RetriedSoFar(classify, env, log)
  {
    forall i | 0 <= i < |log| - 1
      ensures Unsuccessful(log[i]) && ClassOf(classify, log[i]).RetryableClass? && !env.cancelled(i + 1)
    {
      assert log[..|log| - 1][i] == log[i];
    }
  }

  // ---- the handler starts ----

  function Starts(log: seq<Attempt>): nat {
    if log == [] then 0 else Starts(log[..|log| - 1]) + (if log[|log| - 1].Ran? then 1 else 0)
  }

  lemma {:induction false} StartsBounded(log: seq<Attempt>)
    ensures Starts(log) <= |log|
    ensures Starts(log) == |log| <==> forall i :: 0 <= i < |log| ==> log[i].Ran?
  {
    if log != [] {
      var front := log[..|log| - 1];
      StartsBounded(front);
      assert forall i :: 0 <= i < |front| ==> front[i] == log[i];
    }
  }

  /** The breaker after n failed handler runs and nothing else: it counts them, opens at the limit,
      and every later failed trial opens it again. */
  ghost predicate Counted(c: B.Config, env: Env, b: B.Breaker, n: nat) {
    && (if n < c.maxFailures then b.state == B.Closed && b.failures == n else b.state == B.Open)
    && (n > 0 ==> b.lastFail == env.ended(n))
  }

  /** The next attempt comes after the reset time. */
  predicate Waited(c: B.Config, env: Env, k: nat)
    requires k >= 1
  {
    env.asked(k) > env.ended(k - 1) + c.timeout
  }

  lemma CountOneMore(c: B.Config, env: Env, log: seq<Attempt>, a: Attempt)
    requires c.maxFailures >= 1 && Counted(c, env, BreakerAfter(c, log), |log|) && env.error(|log| + 1).Some?
    requires a == NextAttempt(c, env, log)
    ensures a.Ran? <==> |log| < c.maxFailures || Waited(c, env, |log| + 1)
    ensures a.Ran? ==> Counted(c, env, BreakerAfter(c, log + [a]), |log| + 1)
  {
    assert (log + [a])[..|log|] == log;
  }

  /** The n-th attempt, seen from the breaker after those before it. */
  lemma AttemptAt(c: B.Config, env: Env, log: seq<Attempt>, n: nat)
    requires c.maxFailures >= 1 && 1 <= n <= |log| && ThroughBreaker(c, env, log)
    requires Counted(c, env, BreakerAfter(c, log[..n - 1]), n - 1) && env.error(n).Some?
    ensures log[n - 1].Ran? <==> n <= c.maxFailures || Waited(c, env, n)
    ensures log[n - 1].Ran? ==> Counted(c, env, BreakerAfter(c, log[..n]), n)
  {
    assert log[n - 1] == NextAttempt(c, env, log[..n - 1]);
    CountOneMore(c, env, log[..n - 1], log[n - 1]);
    assert log[..n] == log[..n - 1] + [log[n - 1]];
  }

  /** As long as every attempt ran and failed, the breaker has the form above, and each attempt beyond
      the limit had waited. */
  lemma {:induction false} RowIsCounted(c: B.Config, env: Env, log: seq<Attempt>, n: nat)
    requires c.maxFailures >= 1 && n <= |log| && ThroughBreaker(c, env, log)
    requires forall k :: 1 <= k <= n ==> env.error(k).Some?
    requires forall i :: 0 <= i < n ==> log[i].Ran?
    ensures Counted(c, env, BreakerAfter(c, log[..n]), n)
    ensures forall k :: c.maxFailures < k <= n ==> Waited(c, env, k)
  {
    if n > 0 {
      RowIsCounted(c, env, log, n - 1);
      AttemptAt(c, env, log, n);
    }
  }

  /** Conversely, waiting attempts run. */
  lemma {:induction false} WaitingAttemptsRun(c: B.Config, env: Env, log: seq<Attempt>, n: nat)
    requires c.maxFailures >= 1 && n <= |log| && ThroughBreaker(c, env, log)
    requires forall k :: 1 <= k <= n ==> env.error(k).Some?
    requires forall k :: c.maxFailures < k <= n ==> Waited(c, env, k)
    ensures forall i :: 0 <= i < n ==> log[i].Ran?
  {
    if n > 0 {
      WaitingAttemptsRun(c, env, log, n - 1);
      RowIsCounted(c, env, log, n - 1);
      AttemptAt(c, env, log, n);
    }
  }

  /** When the handler always fails, it is started at every attempt exactly when each attempt after the
      first `breakerFailures` ones comes later than the reset time after the one before. */
  lemma StartedEveryTimeExactly(c: B.Config, env: Env, log: seq<Attempt>)
    requires c.maxFailures >= 1 && ThroughBreaker(c, env, log)
    requires forall k :: 1 <= k <= |log| ==> env.error(k).Some?
    ensures Starts(log) == |log| <==> forall k :: c.maxFailures < k <= |log| ==> Waited(c, env, k)
  {
    StartsBounded(log);
    if Starts(log) == |log| {
      RowIsCounted(c, env, log, |log|);
    }
    if forall k :: c.maxFailures < k <= |log| ==> Waited(c, env, k) {
      WaitingAttemptsRun(c, env, log, |log|);
    }
  }

  /** After a full row of failures the next attempt starts the handler exactly when it has waited,
      however it will end. */
  lemma NextAttemptSkipped(c: B.Config, env: Env, log: seq<Attempt>)
    requires c.maxFailures >= 1 && |log| > c.maxFailures && ThroughBreaker(c, env, log)
    requires forall k :: 1 <= k <= c.maxFailures ==> env.error(k).Some?
    ensures log[c.maxFailures].Ran? <==> Waited(c, env, c.maxFailures + 1)
    ensures !Waited(c, env, c.maxFailures + 1) ==> Starts(log) < |log|
  {
    WaitingAttemptsRun(c, env, log, c.maxFailures);
    RowIsCounted(c, env, log, c.maxFailures);
    AskedAfterRow(c, env, log);
    StartsBounded(log);
  }

  lemma AskedAfterRow(c: B.Config, env: Env, log: seq<Attempt>)
    requires c.maxFailures >= 1 && |log| > c.maxFailures && ThroughBreaker(c, env, log)
    requires Counted(c, env, BreakerAfter(c, log[..c.maxFailures]), c.maxFailures)
    ensures log[c.maxFailures].Ran? <==> Waited(c, env, c.maxFailures + 1)
  {
    assert log[c.maxFailures] == NextAttempt(c, env, log[..c.maxFailures]);
  }

  /** Nothing about the retry loop is configured. */
  predicate AllDefaults(c: RetryDLQConfig) {
    c.maxRetries == 0 && c.initialBackoff == 0 && c.maxBackoff == 0 && c.breakerFailures == 0 && c.breakerReset == 0
  }

  /** The delay `Decide` asks for after attempt k. */
  function DelayAfter(c: RetryDLQConfig, k: nat): nat {
    Backoff(k, Normalize(c).initialBackoff, Normalize(c).maxBackoff)
  }

  lemma DefaultDelay(c: RetryDLQConfig)
    requires AllDefaults(c)
    ensures DelayAfter(c, 5) == 16 * SECOND
  {
    BackoffIsCapped(5, SECOND, 60 * SECOND);
    assert Doubled(SECOND, 4) == 2 * Doubled(SECOND, 3) == 4 * Doubled(SECOND, 2) == 8 * Doubled(SECOND, 1) == 16 * SECOND;
  }

  /** With default settings and a handler that fails five times, the sixth and last attempt is asked 16
      seconds plus some lateness after the fifth, and it starts the handler exactly when that lateness
      exceeds 14 seconds. */
  lemma DefaultsSkipTheSixth(config: RetryDLQConfig, env: Env, log: seq<Attempt>, late: nat)
    requires AllDefaults(config) && |log| == 6 && ThroughBreaker(BreakerConfig(Normalize(config)), env, log)
    requires forall k :: 1 <= k <= 5 ==> env.error(k).Some?
    requires env.asked(6) == env.ended(5) + DelayAfter(config, 5) + late
    ensures Normalize(config).maxRetries + 1 == 6
    ensures log[5].Ran? <==> late > 14 * SECOND
  {
    DefaultDelay(config);
    NextAttemptSkipped(BreakerConfig(Normalize(config)), env, log);
  }
}
