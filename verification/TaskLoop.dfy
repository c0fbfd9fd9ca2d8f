/** The scheduler's task loop for a cron schedule: which instants it dispatches, and the lock and
    idempotency keys it derives from them. */
module TaskLoop {
  import opened Text
  import opened CronSearch
  import C = Calendar

  const SECOND: nat := 1_000_000_000
  const GRACE: nat := 500_000_000
  /** Seconds from Go's zero time to the Unix epoch. */
  const UNIX_EPOCH: nat := 62_135_596_800

  datatype Policy = Skip | FireOnce

  function Unix(t: nat): int {
    t / SECOND - UNIX_EPOCH
  }

  function LockKey(task: string, runAt: nat): string {
    "scheduler:" + task + [':'] + Itoa(Unix(runAt))
  }

  /** The configured key, or one derived from its name and the second. */
  function IdempotencyKey(configured: string, task: string, runAt: nat): string {
    if Trim(configured) != "" then Trim(configured) else task + [':'] + Itoa(Unix(runAt))
  }

  /** The instant one round dispatches: the slot, the wake-up time, or nothing when it came too late. */
  function DispatchAt(policy: Policy, slot: nat, woke: nat): Option<nat> {
    if woke > slot + GRACE && policy.Skip? then None
    else if woke > slot && policy.FireOnce? then Some(woke)
    else Some(slot)
  }

  /** One round: the clock when the next run is computed, and when the timer has fired. */
  datatype Round = Round(now: nat, woke: nat)

  ghost predicate IsLoop(e: Expression, zone: Zone, rounds: seq<Round>) {
    && (forall i :: 0 <= i < |rounds| ==>
          NextRun(e, zone, rounds[i].now).Some? && NextRun(e, zone, rounds[i].now).value <= rounds[i].woke)
    && (forall i :: 0 < i < |rounds| ==> rounds[i - 1].woke <= rounds[i].now)
  }

  ghost function Slot(e: Expression, zone: Zone, r: Round): nat {
    var next := NextRun(e, zone, r.now);
    if next.Some? then next.value else 0
  }

  /** A later round wakes after, and is due strictly after, everything an earlier round did. */
  lemma {:induction false} RoundsAdvance(e: Expression, zone: Zone, rounds: seq<Round>, i: nat, j: nat)
    requires IsLoop(e, zone, rounds) && i < j < |rounds|
    ensures Slot(e, zone, rounds[i]) <= rounds[i].woke <= rounds[j].now < Slot(e, zone, rounds[j]) <= rounds[j].woke
    decreases j
  {
    NextRunIsLeast(e, zone, rounds[j].now, 0);
    if i < j - 1 {
      RoundsAdvance(e, zone, rounds, i, j - 1);
    }
  }

  lemma ItoaInjective(a: int, b: int)
    requires Itoa(a) == Itoa(b)
    ensures a == b
  {
    var x, y := NatToString(if a < 0 then -a else a), NatToString(if b < 0 then -b else b);
    ValueOfNatToString(if a < 0 then -a else a);
    ValueOfNatToString(if b < 0 then -b else b);
    assert IsDigit(x[0]) && IsDigit(y[0]);
    assert a < 0 ==> Itoa(a)[0] == '-' && Itoa(a)[1..] == x;
    assert b < 0 ==> Itoa(b)[0] == '-' && Itoa(b)[1..] == y;
  }

  lemma ItoaHasNoColon(n: int)
    ensures ':' !in Itoa(n)
  {
  }

  /** Lock keys are shared exactly by the same task in the same second, whatever the names contain. */
  lemma LockKeyExactly(task: string, other: string, s: nat, t: nat)
    ensures LockKey(task, s) == LockKey(other, t) <==> task == other && Unix(s) == Unix(t)
  {
    if LockKey(task, s) == LockKey(other, t) {
      ItoaHasNoColon(Unix(s));
      ItoaHasNoColon(Unix(t));
      SplitLast("scheduler:" + task, Itoa(Unix(s)), "scheduler:" + other, Itoa(Unix(t)), ':');
      assert task == ("scheduler:" + task)[10..] == ("scheduler:" + other)[10..] == other;
      ItoaInjective(Unix(s), Unix(t));
    }
  }

  /** So are derived idempotency keys; a configured one is used as it is, without surrounding space. */
  lemma IdempotencyKeyExactly(configured: string, task: string, other: string, s: nat, t: nat)
    ensures Trim(configured) == "" ==>
      (IdempotencyKey(configured, task, s) == IdempotencyKey(configured, other, t) <==> task == other && Unix(s) == Unix(t))
    ensures Trim(configured) != "" ==> IdempotencyKey(configured, task, s) == Trim(configured)
  {
    if Trim(configured) == "" && IdempotencyKey(configured, task, s) == IdempotencyKey(configured, other, t) {
      ItoaHasNoColon(Unix(s));
      ItoaHasNoColon(Unix(t));
      SplitLast(task, Itoa(Unix(s)), other, Itoa(Unix(t)), ':');
      ItoaInjective(Unix(s), Unix(t));
    }
  }

  /** `taskNameFromLockKey`. */
  function TaskNameFromLockKey(key: string): (name: string)
    ensures Trim(key) == "" ==> name == "unknown"
    ensures Trim(key) != "" && !("scheduler:" <= Trim(key)) ==> name == Trim(key)
  {
    var trimmed := Trim(key);
    if trimmed == "" then "unknown"
    else if !("scheduler:" <= trimmed) then trimmed
    else
      var payload := trimmed[10..];
      var tail := TailLength(payload, ':');
      if tail + 1 >= |payload| then payload else payload[..|payload| - tail - 1]
  }

  /** The task is read back from its lock key exactly when it has a name. */
  lemma TaskNameRecovered(task: string, t: nat)
    ensures TaskNameFromLockKey(LockKey(task, t)) == task <==> task != ""
  {
    var key, n := LockKey(task, t), Itoa(Unix(t));
    ItoaHasNoColon(Unix(t));
    KeyTrimmed(task, Unix(t));
    assert key[..10] == "scheduler:" && key[10..] == task + [':'] + n;
    TailLengthOf(task, n, ':');
    assert (task + [':'] + n)[..|task|] == task;
  }

  lemma KeyTrimmed(task: string, n: int)
    ensures var key := "scheduler:" + task + [':'] + Itoa(n); Trim(key) == key && "scheduler:" <= key
  {
    var key := "scheduler:" + task + [':'] + Itoa(n);
    assert key[|key| - 1] == Itoa(n)[|Itoa(n)| - 1];
    LastDigit(n);
    TrimFixesTrimmed(key);
  }

  lemma LastDigit(n: int)
    ensures IsDigit(Itoa(n)[|Itoa(n)| - 1])
  {
  }

  /** `Unix` counts from 1 January 1970. */
  lemma EpochIs1970()
    ensures Unix(C.DayNumber(C.Date(1970, 1, 1)) * 86_400 * SECOND) == 0
  {
  }

  lemma SecondsBeforeBoundary(a: nat, minute: nat, b: nat)
    requires a < minute * MINUTE <= b
    ensures Unix(a) < Unix(b)
  {
    assert minute * MINUTE == minute * 60 * SECOND;
    assert a / SECOND < minute * 60 <= b / SECOND;
  }

  /** One scheduler instance never uses a lock key twice for a task: its slots strictly increase, and
      so do the seconds it dispatches. */
  lemma SlotsStrictlyIncrease(e: Expression, zone: Zone, policy: Policy, task: string, rounds: seq<Round>, i: nat, j: nat)
    requires IsLoop(e, zone, rounds) && i < j < |rounds|
    ensures Slot(e, zone, rounds[i]) < Slot(e, zone, rounds[j])
    ensures var a := DispatchAt(policy, Slot(e, zone, rounds[i]), rounds[i].woke);
            var b := DispatchAt(policy, Slot(e, zone, rounds[j]), rounds[j].woke);
            a.Some? && b.Some? ==> a.value < b.value && LockKey(task, a.value) != LockKey(task, b.value)
  {
    RoundsAdvance(e, zone, rounds, i, j);
    var a := DispatchAt(policy, Slot(e, zone, rounds[i]), rounds[i].woke);
    var b := DispatchAt(policy, Slot(e, zone, rounds[j]), rounds[j].woke);
    if a.Some? && b.Some? {
      SecondsBeforeBoundary(a.value, NextMinute(e, zone, rounds[j].now).value, b.value);
      LockKeyExactly(task, task, a.value, b.value);
    }
  }

  /** Instances that wait for the same slot under the skip policy compete for the same lock key and
      give the job the same idempotency key, whenever they started waiting. */
  lemma InstancesShareKeys(e: Expression, zone: Zone, task: string, configured: string, x: Round, y: Round)
    requires NextRun(e, zone, x.now).Some? && x.now <= y.now < NextRun(e, zone, x.now).value
    ensures Slot(e, zone, y) == Slot(e, zone, x)
    ensures var a := DispatchAt(Skip, Slot(e, zone, x), x.woke);
            var b := DispatchAt(Skip, Slot(e, zone, y), y.woke);
            a.Some? && b.Some? ==>
              && LockKey(task, a.value) == LockKey(task, b.value)
              && IdempotencyKey(configured, task, a.value) == IdempotencyKey(configured, task, b.value)
  {
    NextRunConstantUntilDue(e, zone, x.now, y.now);
  }

  /** What the first `n` rounds dispatch. */
  ghost function Dispatched(e: Expression, zone: Zone, policy: Policy, rounds: seq<Round>, n: nat): seq<nat>
    requires n <= |rounds|
  {
    if n == 0 then []
    else
      var d := DispatchAt(policy, Slot(e, zone, rounds[n - 1]), rounds[n - 1].woke);
      Recorded(Dispatched(e, zone, policy, rounds, n - 1), d)
  }

  /** Exactly the instants of its rounds, skipped rounds left out. */
  lemma {:induction false} DispatchedExactly(e: Expression, zone: Zone, policy: Policy, rounds: seq<Round>, n: nat, t: nat)
    requires n <= |rounds|
    ensures t in Dispatched(e, zone, policy, rounds, n) <==>
      exists i :: 0 <= i < n && DispatchAt(policy, Slot(e, zone, rounds[i]), rounds[i].woke) == Some(t)
  {
    if n > 0 {
      DispatchedExactly(e, zone, policy, rounds, n - 1, t);
    }
  }

  /** In the order of the rounds, so each instant is dispatched once. */
  lemma DispatchedIncreasing(e: Expression, zone: Zone, policy: Policy, rounds: seq<Round>, n: nat)
    requires IsLoop(e, zone, rounds) && n <= |rounds|
    ensures Increasing(Dispatched(e, zone, policy, rounds, n))
  {
    forall m: nat | m < n ensures RoundAfterAll(e, zone, policy, rounds, m) {
      AllDispatchedBefore(e, zone, policy, rounds, m);
    }
    IncreasingByRounds(e, zone, policy, rounds, n);
  }

  /** What a round dispatches comes after everything before it. */
  ghost predicate RoundAfterAll(e: Expression, zone: Zone, policy: Policy, rounds: seq<Round>, m: nat)
    requires m < |rounds|
  {
    AllBelow(Dispatched(e, zone, policy, rounds, m), DispatchAt(policy, Slot(e, zone, rounds[m]), rounds[m].woke))
  }

  lemma {:induction false} IncreasingByRounds(e: Expression, zone: Zone, policy: Policy, rounds: seq<Round>, n: nat)
    requires n <= |rounds| && forall m: nat :: m < n ==> RoundAfterAll(e, zone, policy, rounds, m)
    ensures Increasing(Dispatched(e, zone, policy, rounds, n))
  {
    if n > 0 {
      IncreasingByRounds(e, zone, policy, rounds, n - 1);
      assert RoundAfterAll(e, zone, policy, rounds, n - 1);
      IncreasingSnoc(Dispatched(e, zone, policy, rounds, n - 1), DispatchAt(policy, Slot(e, zone, rounds[n - 1]), rounds[n - 1].woke));
    }
  }

  predicate Increasing(d: seq<nat>) {
    forall a, b :: 0 <= a < b < |d| ==> d[a] < d[b]
  }

  predicate AllBelow(d: seq<nat>, x: Option<nat>) {
    x.Some? ==> forall i :: 0 <= i < |d| ==> d[i] < x.value
  }

  lemma IncreasingSnoc(d: seq<nat>, x: Option<nat>)
    requires Increasing(d) && AllBelow(d, x)
    ensures Increasing(Recorded(d, x))
  {
  }

  lemma AllDispatchedBefore(e: Expression, zone: Zone, policy: Policy, rounds: seq<Round>, n: nat)
    requires IsLoop(e, zone, rounds) && n < |rounds|
    ensures RoundAfterAll(e, zone, policy, rounds, n)
  {
    var d := Dispatched(e, zone, policy, rounds, n);
    forall i | 0 <= i < |d|
      ensures var last := DispatchAt(policy, Slot(e, zone, rounds[n]), rounds[n].woke); last.Some? ==> d[i] < last.value
    {
      DispatchedBefore(e, zone, policy, rounds, n, d[i]);
    }
  }

  lemma DispatchedBefore(e: Expression, zone: Zone, policy: Policy, rounds: seq<Round>, n: nat, t: nat)
    requires IsLoop(e, zone, rounds) && n < |rounds| && t in Dispatched(e, zone, policy, rounds, n)
    ensures var last := DispatchAt(policy, Slot(e, zone, rounds[n]), rounds[n].woke); last.Some? ==> t < last.value
  {
    DispatchedExactly(e, zone, policy, rounds, n, t);
    var i :| 0 <= i < n && DispatchAt(policy, Slot(e, zone, rounds[i]), rounds[i].woke) == Some(t);
    SlotsStrictlyIncrease(e, zone, policy, "", rounds, i, n);
  }

  /** One round: what is dispatched, if a next run exists at all. */
  method RunRound(e: Expression, zone: Zone, policy: Policy, r: Round) returns (found: bool, d: Option<nat>)
    ensures found <==> NextRun(e, zone, r.now).Some?
    ensures found ==> d == DispatchAt(policy, Slot(e, zone, r), r.woke)
    ensures found ==>
      var slot := NextRun(e, zone, r.now).value;
      && (d == None <==> policy == Skip && r.woke > slot + 500_000_000)
      && (policy == Skip && r.woke <= slot + 500_000_000 ==> d == Some(slot))
      && (policy == FireOnce ==> d == Some(if r.woke > slot then r.woke else slot))
  {
    var minute := Search(e, zone, r.now);
    SearchIsNextMinute(e, zone, r.now, minute);
    if minute.None? {
      return false, None;
    }
    var slot := minute.value * MINUTE;
    assert slot == Slot(e, zone, r);
    if r.woke > slot + GRACE && policy.Skip? {
      return true, None;
    }
    if r.woke > slot && policy.FireOnce? {
      return true, Some(r.woke);
    }
    return true, Some(slot);
  }

  /** The first `n` rounds each had a next run and were not cancelled. */
  ghost predicate Continued(e: Expression, zone: Zone, rounds: seq<Round>, cancelled: nat -> bool, n: nat)
    requires n <= |rounds|
  {
    n == 0 || (Continued(e, zone, rounds, cancelled, n - 1) && NextRun(e, zone, rounds[n - 1].now).Some? && !cancelled(n - 1))
  }

  /** `runTaskLoop` over the given rounds: it stops at the first round without a next run or in whose
      wait the context is cancelled. */
  method Run(e: Expression, zone: Zone, policy: Policy, rounds: seq<Round>, cancelled: nat -> bool)
    returns (dispatched: seq<nat>, done: nat)
    ensures done <= |rounds| && Continued(e, zone, rounds, cancelled, done)
    ensures done < |rounds| ==> NextRun(e, zone, rounds[done].now).None? || cancelled(done)
    ensures dispatched == Dispatched(e, zone, policy, rounds, done)
  {
    dispatched, done := [], 0;
    while done < |rounds|
      invariant 0 <= done <= |rounds| && Continued(e, zone, rounds, cancelled, done)
      invariant dispatched == Dispatched(e, zone, policy, rounds, done)
    {
      var found, d := RunRound(e, zone, policy, rounds[done]);
      if !found || cancelled(done) {
        return;
      }
      dispatched := Recorded(dispatched, d);
      done := done + 1;
    }
  }

  function Recorded(dispatched: seq<nat>, d: Option<nat>): seq<nat> {
    if d.Some? then dispatched + [d.value] else dispatched
  }
}
