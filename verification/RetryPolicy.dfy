/** The retry decision shared by the job worker and the event consumer. */
module RetryPolicy {
  datatype Classification = RetryableClass | PoisonClass | TerminalClass
  datatype Disposition = ImmediateRetry | DelayedRetry | DeadLettered | Quarantined | Dropped
  datatype Policy = Policy(deadLetter: bool, quarantine: bool)

  type Decider = (Classification, int, int, Policy) -> Disposition

  /** The disposition part of `reliabilityretry.Decide`. */
  function Decide(kind: Classification, attempt: int, maxAttempts: int, policy: Policy): (d: Disposition)
    ensures d.DelayedRetry? <==> kind.RetryableClass? && (attempt < maxAttempts || attempt < 1)
    ensures d.Quarantined? <==> policy.quarantine && !kind.TerminalClass? && !d.DelayedRetry?
    ensures d.DeadLettered? <==> policy.deadLetter && !d.DelayedRetry? && !d.Quarantined?
    ensures d.Dropped? <==> !policy.deadLetter && !d.DelayedRetry? && !d.Quarantined?
  {
    var limit := if maxAttempts <= 0 then 1 else maxAttempts;
    if kind.TerminalClass? then (if policy.deadLetter then DeadLettered else Dropped)
    else if kind.RetryableClass? && attempt < limit then DelayedRetry
    else if policy.quarantine then Quarantined
    else if policy.deadLetter then DeadLettered
    else Dropped
  }

  // ---- the delay before a retry ----

  function Min(a: nat, b: nat): nat {
    if a <= b then a else b
  }

  /** The loop of `ExponentialBackoff` with n doublings left. */
  function Doubling(backoff: nat, n: nat, maxBackoff: nat): nat
    decreases n
  {
    if n == 0 then Min(backoff, maxBackoff)
    else if backoff >= maxBackoff / 2 then maxBackoff
    else Doubling(2 * backoff, n - 1, maxBackoff)
  }

  function Backoff(attempt: int, initial: nat, maxBackoff: nat): (delay: nat)
    ensures attempt <= 0 ==> delay == initial
    ensures attempt == 1 ==> delay == Min(initial, maxBackoff)
  {
    if attempt <= 0 then initial else Doubling(initial, attempt - 1, maxBackoff)
  }

  /** The value is doubled only while twice of it stays below the cap, so it never overflows. */
  method ExponentialBackoff(attempt: int, initial: nat, maxBackoff: nat) returns (r: nat)
    ensures r == Backoff(attempt, initial, maxBackoff)
  {
    if attempt <= 0 {
      return initial;
    }
    var backoff: nat := initial;
    var i := 1;
    while i < attempt
      invariant 1 <= i <= attempt && (backoff == initial || backoff < maxBackoff)
      invariant Doubling(backoff, attempt - i, maxBackoff) == Backoff(attempt, initial, maxBackoff)
    {
      if backoff >= maxBackoff / 2 {
        return maxBackoff;
      }
      backoff := 2 * backoff;
      i := i + 1;
    }
    r := if backoff > maxBackoff then maxBackoff else backoff;
  }

  /** n doublings without a cap. */
  function Doubled(x: nat, n: nat): nat {
    if n == 0 then x else 2 * Doubled(x, n - 1)
  }

  lemma {:induction false} DoubledShift(x: nat, n: nat)
    ensures Doubled(2 * x, n) == Doubled(x, n + 1) && x <= Doubled(x, n)
  {
    if n > 0 {
      DoubledShift(x, n - 1);
    }
  }

  /** The delay is the doubled initial value, capped; with an odd cap it may reach the cap one
      nanosecond early. */
  lemma {:induction false} DoublingIsCapped(x: nat, n: nat, maxBackoff: nat)
    ensures Doubling(x, n, maxBackoff) == Min(Doubled(x, n), maxBackoff)
         || (maxBackoff % 2 == 1 && Doubled(x, n) == maxBackoff - 1 && Doubling(x, n, maxBackoff) == maxBackoff)
         || (maxBackoff == 1 && Doubling(x, n, maxBackoff) == 1)
    decreases n
  {
    if n > 0 {
      DoubledShift(x, n - 1);
      DoubledShift(2 * x, n - 1);
      if x < maxBackoff / 2 {
        DoublingIsCapped(2 * x, n - 1, maxBackoff);
      }
    }
  }

  lemma BackoffIsCapped(attempt: int, initial: nat, maxBackoff: nat)
    requires attempt >= 1 && maxBackoff % 2 == 0
    ensures Backoff(attempt, initial, maxBackoff) == Min(Doubled(initial, attempt - 1), maxBackoff)
  {
    DoublingIsCapped(initial, attempt - 1, maxBackoff);
  }
}
