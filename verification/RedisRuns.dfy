/** All runs of the Redis jobs backend: any number of clients send the atomic commands of
    `RedisQueue` in any order, and time passes. Nack and MoveToDLQ are two commands each, a read of
    the lease key and a later transition, so other clients may act in between. */
module RedisRuns {
  import opened Text
  import opened Jobs
  import opened RedisQueue

  /** What a client that read a leased job wants to do with it. */
  datatype Move =
    | Retry(nextRunAt: Time, now: Time, reason: Option<string>, failedAt: string)
    | DeadLetter(suffix: string, now: Time, reason: Option<string>, failedAt: string)

  function Moved(j: Job, m: Move): (moved: Job)
    ensures moved.id == j.id
    ensures m.Retry? ==> moved.queue == j.queue && moved.attempt == j.attempt + 1 && moved.runAt == if m.nextRunAt != 0 then m.nextRunAt else m.now
    ensures m.DeadLetter? ==> moved.queue == Trim(j.queue) + m.suffix && moved.attempt == j.attempt
  {
    match m
    case Retry(next, now, reason, failedAt) => RetryOf(j, next, now, reason, failedAt)
    case DeadLetter(suffix, _, reason, failedAt) => DeadLetterOf(j, Trim(j.queue), suffix, reason, failedAt)
  }

  /** The time passed to the transition script. */
  function MoveTime(j: Job, m: Move): Time {
    if m.Retry? then Moved(j, m).runAt else m.now
  }

  datatype Event =
    | Tick(elapsed: nat)
    | Enqueue(job: Job, at: Time)
    | Reserve(queue: string, at: Time, leaseMs: nat, token: string, batch: nat, due: seq<Payload>)
    | Ack(token: string)
    | Read(token: string)
    | Transition(token: string, expected: Payload, move: Move, at: Time)
    | Renew(token: string, leaseMs: nat)
    | Expire(token: string)

  /** The database, the shared clock, the tokens handed out, the lease values clients have read,
      and a ledger of what happened to tokens and job ids. `merged` holds the ids that were put into a
      zset where the very same payload already waited. */
  datatype World = World(
    db: Db, now: Time, used: set<string>, seen: set<(string, Payload)>, finished: multiset<string>,
    enqueued: multiset<string>, acked: multiset<string>, expired: multiset<string>, merged: multiset<string>)

  function Init(): World {
    World(Db(map[], map[], map[]), 0, {}, {}, multiset{}, multiset{}, multiset{}, multiset{}, multiset{})
  }

  /** Redis serves no command from a lease key whose time is up. */
  predicate NoneOverdue(w: World) {
    forall t :: t in w.db.leases ==> Ms(w.now) < w.db.leases[t].expireAtMs
  }

  /** Clients use fresh tokens, clock readings of the past, and only payloads they read. */
  ghost predicate Enabled(w: World, e: Event) {
    match e
    case Tick(_) => true
    case Expire(t) => t in w.db.leases && w.db.leases[t].expireAtMs <= Ms(w.now)
    case Enqueue(j, at) => NoneOverdue(w) && at <= w.now && Valid(j)
    case Reserve(q, at, leaseMs, token, batch, due) =>
      NoneOverdue(w) && at <= w.now && leaseMs >= 1 && token !in w.used && batch >= 1
      && DueBatch(Delayed(w.db, q), Ms(at), batch, due)
    case Ack(_) => NoneOverdue(w)
    case Read(_) => NoneOverdue(w)
    case Transition(t, p, m, at) =>
      NoneOverdue(w) && at <= w.now && (t, p) in w.seen && p.Encoded? && m.now <= at
    case Renew(_, leaseMs) => NoneOverdue(w) && leaseMs >= 1
  }

  /** When a lease set or renewed now runs out. */
  function Deadline(w: World, leaseMs: nat): nat {
    Ms(w.now) + leaseMs
  }

  function Reserved(w: World, e: Event): (Db, Option<Payload>)
    requires e.Reserve?
  {
    ReserveEffect(w.db, e.queue, e.due, e.token, Deadline(w, e.leaseMs))
  }

  function Transitioned(w: World, e: Event): (Db, int)
    requires e.Transition? && e.expected.Encoded?
  {
    var next := Moved(e.expected.job, e.move);
    TransitionEffect(w.db, e.token, e.expected, Encoded(next), Trim(next.queue), Ms(MoveTime(e.expected.job, e.move)), Ms(e.at))
  }

  function LeasedId(w: World, t: string): multiset<string>
    requires t in w.db.leases
  {
    multiset{IdOf(w.db.leases[t].payload)}
  }

  /** The job id that an event merges into a waiting payload, if any. */
  function MergedBy(w: World, e: Event): multiset<string> {
    match e
    case Enqueue(j, at) => Merged(w.db, Trim(j.queue), Encoded(j), j.runAt <= at)
    case Transition(_, p, m, at) =>
      if p.Encoded? && Transitioned(w, e).1 == 1 then
        var next := Moved(p.job, m);
        Merged(w.db, Trim(next.queue), Encoded(next), Ms(MoveTime(p.job, m)) <= Ms(at))
      else multiset{}
    case _ => multiset{}
  }

  ghost function Step(w: World, e: Event): World
    requires Enabled(w, e)
  {
    match e
    case Tick(d) => w.(now := w.now + d)
    case Enqueue(j, at) => w.(db := EnqueueEffect(w.db, j, at), enqueued := w.enqueued + multiset{j.id}, merged := w.merged + MergedBy(w, e))
    case Reserve(_, _, _, token, _, _) =>
      var (db, p) := Reserved(w, e);
      w.(db := db, used := if p.Some? then w.used + {token} else w.used)
    case Ack(t) =>
      if t !in w.db.leases then w
      else w.(db := DeleteLease(w.db, t), finished := w.finished + multiset{t}, acked := w.acked + LeasedId(w, t))
    case Read(t) =>
      if t !in w.db.leases then w else w.(seen := w.seen + {(t, w.db.leases[t].payload)})
    case Transition(t, _, _, _) =>
      var (db, code) := Transitioned(w, e);
      w.(db := db, finished := if code == 1 then w.finished + multiset{t} else w.finished, merged := w.merged + MergedBy(w, e))
    case Renew(t, leaseMs) =>
      if t !in w.db.leases then w
      else w.(db := Hold(w.db, t, w.db.leases[t].(expireAtMs := Deadline(w, leaseMs))))
    case Expire(t) =>
      w.(db := DeleteLease(w.db, t), finished := w.finished + multiset{t}, expired := w.expired + LeasedId(w, t))
  }

  ghost predicate IsRun(ws: seq<World>, es: seq<Event>) {
    && |ws| == |es| + 1 && ws[0] == Init()
    && forall i :: 0 <= i < |es| ==> Enabled(ws[i], es[i]) && ws[i + 1] == Step(ws[i], es[i])
  }

  // ---- tokens: every token is live or finished, never both, and finished once ----

  ghost predicate TokensOk(w: World) {
    && (forall t :: t in w.db.leases ==> t in w.used)
    && (forall t :: w.finished[t] == if t in w.used && t !in w.db.leases then 1 else 0)
    && (forall t, p :: (t, p) in w.seen ==> t in w.used && (t in w.db.leases ==> w.db.leases[t].payload == p))
  }

  lemma ReserveTokens(w: World, e: Event)
    requires TokensOk(w) && Enabled(w, e) && e.Reserve?
    ensures TokensOk(Step(w, e))
  {
    ReserveShape(w.db, e.queue, e.due, e.token, Deadline(w, e.leaseMs), Ms(e.at), e.batch);
  }

  lemma TransitionTokens(w: World, e: Event)
    requires TokensOk(w) && Enabled(w, e) && e.Transition?
    ensures TokensOk(Step(w, e)) && Transitioned(w, e).1 != -1
  {
    var next := Moved(e.expected.job, e.move);
    TransitionShape(w.db, e.token, e.expected, Encoded(next), Trim(next.queue), Ms(MoveTime(e.expected.job, e.move)), Ms(e.at));
  }

  lemma TokensStep(w: World, e: Event)
    requires TokensOk(w) && Enabled(w, e)
    ensures TokensOk(Step(w, e))
    ensures e.Transition? ==> Transitioned(w, e).1 != -1
  {
    match e
    case Reserve(_, _, _, _, _, _) => ReserveTokens(w, e);
    case Transition(_, _, _, _) => TransitionTokens(w, e);
    case _ =>
  }

  // ---- times: nothing is ready or leased before its run-at millisecond ----

  predicate DueAt(p: Payload, nowMs: nat) {
    p.Encoded? && Ms(p.job.runAt) <= nowMs
  }

  predicate AllDue(s: seq<Payload>, nowMs: nat) {
    forall i :: 0 <= i < |s| ==> DueAt(s[i], nowMs)
  }

  predicate ScoresOk(z: Zset) {
    forall p :: p in z ==> p.Encoded? && z[p] == Ms(p.job.runAt)
  }

  predicate DbTimesOk(db: Db, nowMs: nat) {
    && (forall q :: q in db.ready ==> AllDue(db.ready[q], nowMs))
    && (forall q :: q in db.delayed ==> ScoresOk(db.delayed[q]))
    && (forall t :: t in db.leases ==> DueAt(db.leases[t].payload, nowMs))
  }

  predicate TimesOk(w: World) {
    DbTimesOk(w.db, Ms(w.now))
  }

  lemma MsMonotone(a: Time, b: Time)
    requires a <= b
    ensures Ms(a) <= Ms(b)
  {
  }

  lemma MoveOneTimes(db: Db, queue: string, p: Payload, nowMs: nat)
    requires DbTimesOk(db, nowMs) && p in Delayed(db, queue) && Delayed(db, queue)[p] <= nowMs
    ensures DbTimesOk(MoveOne(db, queue, p), nowMs)
  {
    assert ScoresOk(Delayed(db, queue)) && AllDue(List(db, queue), nowMs);
    assert AllDue(List(db, queue) + [p], nowMs);
    assert ScoresOk(Delayed(db, queue) - {p});
  }

  lemma {:induction false} TransferTimes(db: Db, queue: string, due: seq<Payload>, nowMs: nat)
    requires DbTimesOk(db, nowMs) && Waiting(db, queue, due)
    requires forall i :: 0 <= i < |due| ==> Delayed(db, queue)[due[i]] <= nowMs
    ensures DbTimesOk(Transfer(db, queue, due), nowMs)
    decreases |due|
  {
    if due != [] {
      MoveOneTimes(db, queue, due[0], nowMs);
      MoveOneShape(db, queue, due[0]);
      WaitingTail(db, queue, due);
      TransferTimes(MoveOne(db, queue, due[0]), queue, due[1..], nowMs);
    }
  }

  lemma ReserveTimes(db: Db, queue: string, due: seq<Payload>, token: string, expireAtMs: nat, nowMs: nat)
    requires DbTimesOk(db, nowMs) && Waiting(db, queue, due)
    requires forall i :: 0 <= i < |due| ==> Delayed(db, queue)[due[i]] <= nowMs
    ensures var (after, p) := ReserveEffect(db, queue, due, token, expireAtMs);
            DbTimesOk(after, nowMs) && (p.Some? ==> DueAt(p.value, nowMs))
  {
    TransferTimes(db, queue, due, nowMs);
    var list := List(Transfer(db, queue, due), queue);
    if list != [] {
      assert AllDue(list, nowMs);
      assert AllDue(list[1..], nowMs);
    }
  }

  lemma PutTimes(db: Db, queue: string, j: Job, runAtMs: nat, nowMs: nat, ready: bool)
    requires DbTimesOk(db, nowMs)
    requires if ready then Ms(j.runAt) <= nowMs else runAtMs == Ms(j.runAt)
    ensures DbTimesOk(Put(db, queue, Encoded(j), runAtMs, ready), nowMs)
  {
    if ready {
      assert AllDue(List(db, queue) + [Encoded(j)], nowMs);
    } else {
      assert ScoresOk(Delayed(db, queue)[Encoded(j) := runAtMs]);
    }
  }

  lemma TransitionTimes(w: World, e: Event)
    requires TimesOk(w) && Enabled(w, e) && e.Transition?
    ensures TimesOk(Step(w, e))
  {
    var j := e.expected.job;
    var next := Moved(j, e.move);
    var when := Ms(MoveTime(j, e.move));
    MsMonotone(e.at, w.now);
    MsMonotone(e.move.now, e.at);
    if e.token in w.db.leases && w.db.leases[e.token].payload == e.expected {
      PutTimes(DeleteLease(w.db, e.token), Trim(next.queue), next, when, Ms(w.now), when <= Ms(e.at));
    }
  }

  lemma TimesStep(w: World, e: Event)
    requires TimesOk(w) && Enabled(w, e)
    ensures TimesOk(Step(w, e))
    ensures e.Reserve? && Reserved(w, e).1.Some? ==> DueAt(Reserved(w, e).1.value, Ms(w.now))
  {
    match e
    case Tick(d) =>
      MsMonotone(w.now, w.now + d);
      LaterTimes(w.db, Ms(w.now), Ms(w.now + d));
    case Enqueue(j, at) =>
      MsMonotone(at, w.now);
      if j.runAt <= at {
        MsMonotone(j.runAt, at);
      }
      PutTimes(w.db, Trim(j.queue), j, Ms(j.runAt), Ms(w.now), j.runAt <= at);
    case Reserve(q, at, leaseMs, token, _, due) =>
      MsMonotone(at, w.now);
      ReserveTimes(w.db, q, due, token, Deadline(w, leaseMs), Ms(w.now));
    case Transition(_, _, _, _) =>
      TransitionTimes(w, e);
    case _ =>
  }

  lemma LaterTimes(db: Db, a: nat, b: nat)
    requires DbTimesOk(db, a) && a <= b
    ensures DbTimesOk(db, b)
  {
    forall q | q in db.ready ensures AllDue(db.ready[q], b) {
      assert AllDue(db.ready[q], a);
    }
  }

  // ---- conservation ----

  /** Every enqueued copy of a job is held, acknowledged, expired or merged. */
  ghost predicate Accounted(w: World, id: string) {
    JobsIn(w.db)[id] + w.acked[id] + w.expired[id] + w.merged[id] == w.enqueued[id]
  }

  lemma EnqueueLedger(w: World, e: Event, id: string)
    requires Accounted(w, id) && Enabled(w, e) && e.Enqueue?
    ensures Accounted(Step(w, e), id)
  {
    EnqueueCounts(w.db, e.job, e.at);
    PointwiseSum(JobsIn(Step(w, e).db), MergedBy(w, e), JobsIn(w.db), multiset{e.job.id}, id);
  }

  lemma PointwiseSum(a: multiset<string>, b: multiset<string>, c: multiset<string>, d: multiset<string>, id: string)
    requires a + b == c + d
    ensures a[id] + b[id] == c[id] + d[id]
  {
    assert (a + b)[id] == (c + d)[id];
  }

  lemma ReserveLedger(w: World, e: Event, id: string)
    requires Accounted(w, id) && Enabled(w, e) && e.Reserve? && TokensOk(w)
    ensures Accounted(Step(w, e), id)
  {
    ReserveCounts(w.db, e.queue, e.due, e.token, Deadline(w, e.leaseMs));
  }

  lemma TransitionLedger(w: World, e: Event, id: string)
    requires Accounted(w, id) && Enabled(w, e) && e.Transition?
    ensures Accounted(Step(w, e), id)
  {
    TransitionBalance(w, e);
    PointwiseSum(JobsIn(Step(w, e).db), MergedBy(w, e), JobsIn(w.db), multiset{}, id);
  }

  lemma TransitionBalance(w: World, e: Event)
    requires Enabled(w, e) && e.Transition?
    ensures JobsIn(Step(w, e).db) + MergedBy(w, e) == JobsIn(w.db)
  {
    if e.token in w.db.leases && w.db.leases[e.token].payload == e.expected {
      var next := Moved(e.expected.job, e.move);
      var q, when := Trim(next.queue), Ms(MoveTime(e.expected.job, e.move));
      TransitionCounts(w.db, e.token, e.expected, Encoded(next), q, when, Ms(e.at));
    }
  }

  lemma RenewLedger(w: World, e: Event, id: string)
    requires Accounted(w, id) && Enabled(w, e) && e.Renew?
    ensures Accounted(Step(w, e), id)
  {
    if e.token in w.db.leases {
      RenewCounts(w.db, e.token, Deadline(w, e.leaseMs));
    }
  }

  lemma RemovalLedger(w: World, e: Event, id: string)
    requires Accounted(w, id) && Enabled(w, e) && (e.Ack? || e.Expire?)
    ensures Accounted(Step(w, e), id)
  {
    if e.token in w.db.leases {
      LeaseDeleted(w.db, e.token);
      var one := LeasedId(w, e.token);
      assert (JobsIn(DeleteLease(w.db, e.token)) + one)[id] == JobsIn(DeleteLease(w.db, e.token))[id] + one[id];
    }
  }

  lemma LedgerStep(w: World, e: Event, id: string)
    requires Accounted(w, id) && Enabled(w, e) && TokensOk(w)
    ensures Accounted(Step(w, e), id)
  {
    match e
    case Enqueue(_, _) => EnqueueLedger(w, e, id);
    case Reserve(_, _, _, _, _, _) => ReserveLedger(w, e, id);
    case Transition(_, _, _, _) => TransitionLedger(w, e, id);
    case Ack(_) => RemovalLedger(w, e, id);
    case Expire(_) => RemovalLedger(w, e, id);
    case Renew(_, _) => RenewLedger(w, e, id);
    case Tick(_) =>
    case Read(_) =>
  }

  // ---- all runs ----

  lemma {:induction false} Invariants(ws: seq<World>, es: seq<Event>, i: nat)
    requires IsRun(ws, es) && i < |ws|
    ensures TokensOk(ws[i]) && TimesOk(ws[i]) && forall id :: Accounted(ws[i], id)
  {
    if i == 0 {
      InitLedger();
    } else {
      Invariants(ws, es, i - 1);
      TokensStep(ws[i - 1], es[i - 1]);
      TimesStep(ws[i - 1], es[i - 1]);
      forall id ensures Accounted(ws[i], id) {
        assert Accounted(ws[i - 1], id);
        LedgerStep(ws[i - 1], es[i - 1], id);
      }
    }
  }

  lemma InitLedger()
    ensures forall id :: Accounted(Init(), id)
  {
    var db := Init().db;
    assert ReadyBags(db) == map[] && DelayedBags(db) == map[] && LeaseBags(db) == map[];
    assert JobsIn(db) == multiset{};
  }

  /** Every enqueued copy of a job is at every moment in exactly one of: a ready list, a zset, a lease,
      the acknowledged jobs, the jobs lost to lease expiry, the copies merged into an equal one. This
      holds for repeated ids as well, such as those of replayed dead letters. */
  lemma JobsConserved(ws: seq<World>, es: seq<Event>, i: nat)
    requires IsRun(ws, es) && i < |ws|
    ensures JobsIn(ws[i].db) + ws[i].acked + ws[i].expired + ws[i].merged == ws[i].enqueued
  {
    Invariants(ws, es, i);
    var w := ws[i];
    forall id ensures (JobsIn(w.db) + w.acked + w.expired + w.merged)[id] == w.enqueued[id] {
      assert Accounted(w, id);
    }
  }

  /** Only Enqueue adds jobs, and only Ack and expiry remove them, except for a merge. */
  lemma JobsLeaveOnlyByAckOrExpiry(ws: seq<World>, es: seq<Event>, i: nat)
    requires IsRun(ws, es) && i < |es| && !es[i].Enqueue? && !es[i].Ack? && !es[i].Expire?
    ensures JobsIn(ws[i + 1].db) + MergedBy(ws[i], es[i]) == JobsIn(ws[i].db)
    ensures !es[i].Transition? ==> JobsIn(ws[i + 1].db) == JobsIn(ws[i].db)
  {
    Invariants(ws, es, i);
    Invariants(ws, es, i + 1);
    SameLedger(ws[i], es[i]);
    forall id ensures JobsIn(ws[i + 1].db)[id] + MergedBy(ws[i], es[i])[id] == JobsIn(ws[i].db)[id] {
      assert Accounted(ws[i], id) && Accounted(ws[i + 1], id);
    }
    SumByElements(JobsIn(ws[i + 1].db), MergedBy(ws[i], es[i]), JobsIn(ws[i].db));
  }

  lemma SumByElements(a: multiset<string>, b: multiset<string>, c: multiset<string>)
    requires forall id :: a[id] + b[id] == c[id]
    ensures a + b == c && (b == multiset{} ==> a == c)
  {
  }

  lemma SameLedger(w: World, e: Event)
    requires Enabled(w, e) && !e.Enqueue? && !e.Ack? && !e.Expire?
    ensures var v := Step(w, e);
      v.enqueued == w.enqueued && v.acked == w.acked && v.expired == w.expired && v.merged == w.merged + MergedBy(w, e)
  {
  }

  // ---- runs in which no job id is enqueued twice ----

  ghost predicate FreshIds(ws: seq<World>, es: seq<Event>)
    requires |ws| == |es| + 1
  {
    forall i :: 0 <= i < |es| && es[i].Enqueue? ==> es[i].job.id !in ws[i].enqueued
  }

  /** Each id was enqueued at most once, and nothing was merged. */
  ghost predicate Distinct(w: World) {
    w.merged == multiset{} && forall id :: w.enqueued[id] <= 1
  }

  /** A payload whose job is held elsewhere, or is new, does not already wait in a zset. */
  lemma NotWaiting(w: World, queue: string, p: Payload)
    requires Accounted(w, IdOf(p)) && Distinct(w)
    requires IdOf(p) !in w.enqueued || exists t :: t in w.db.leases && IdOf(w.db.leases[t].payload) == IdOf(p)
    ensures p !in Delayed(w.db, queue)
  {
    if p in Delayed(w.db, queue) {
      DelayedIsCounted(w.db, queue, p);
    }
  }

  lemma DistinctStep(w: World, e: Event)
    requires (forall id :: Accounted(w, id)) && Distinct(w) && Enabled(w, e)
    requires e.Enqueue? ==> e.job.id !in w.enqueued
    ensures Distinct(Step(w, e)) && MergedBy(w, e) == multiset{}
  {
    if e.Enqueue? {
      assert Accounted(w, e.job.id);
      NotWaiting(w, Trim(e.job.queue), Encoded(e.job));
    } else if e.Transition? && e.token in w.db.leases && w.db.leases[e.token].payload == e.expected {
      var next := Moved(e.expected.job, e.move);
      assert Accounted(w, next.id);
      NotWaiting(w, Trim(next.queue), Encoded(next));
    }
  }

  lemma {:induction false} DistinctAlways(ws: seq<World>, es: seq<Event>, i: nat)
    requires IsRun(ws, es) && FreshIds(ws, es) && i < |ws|
    ensures Distinct(ws[i])
  {
    if i > 0 {
      DistinctAlways(ws, es, i - 1);
      Invariants(ws, es, i - 1);
      DistinctStep(ws[i - 1], es[i - 1]);
    }
  }

  /** Then every job is at every moment in exactly one place: held once, acknowledged or expired. */
  lemma OnePlacePerJob(ws: seq<World>, es: seq<Event>, i: nat)
    requires IsRun(ws, es) && FreshIds(ws, es) && i < |ws|
    ensures JobsIn(ws[i].db) + ws[i].acked + ws[i].expired == ws[i].enqueued
    ensures forall id :: ws[i].enqueued[id] <= 1
  {
    DistinctAlways(ws, es, i);
    JobsConserved(ws, es, i);
    WithoutMerges(JobsIn(ws[i].db) + ws[i].acked + ws[i].expired, ws[i].merged);
  }

  lemma WithoutMerges(a: multiset<string>, b: multiset<string>)
    requires b == multiset{}
    ensures a + b == a
  {
  }

  /** And Reserve, Nack, Renew and MoveToDLQ preserve the multiset of job ids. */
  lemma OnlyAckAndExpiryRemove(ws: seq<World>, es: seq<Event>, i: nat)
    requires IsRun(ws, es) && FreshIds(ws, es) && i < |es| && !es[i].Enqueue? && !es[i].Ack? && !es[i].Expire?
    ensures JobsIn(ws[i + 1].db) == JobsIn(ws[i].db)
  {
    JobsLeaveOnlyByAckOrExpiry(ws, es, i);
    DistinctAlways(ws, es, i);
    Invariants(ws, es, i);
    DistinctStep(ws[i], es[i]);
  }

  /** No job is handed out before its run-at millisecond. */
  lemma NeverEarly(ws: seq<World>, es: seq<Event>, i: nat)
    requires IsRun(ws, es) && i < |es| && es[i].Reserve? && Reserved(ws[i], es[i]).1.Some?
    ensures var p := Reserved(ws[i], es[i]).1.value;
            p.Encoded? && Ms(p.job.runAt) <= Ms(ws[i].now)
  {
    Invariants(ws, es, i);
    TimesStep(ws[i], es[i]);
  }

  /** On one lease at most one of Ack, Nack, MoveToDLQ and expiry takes effect, whatever the
      interleaving of their reads and transitions. */
  lemma AtMostOneOutcome(ws: seq<World>, es: seq<Event>, i: nat, t: string)
    requires IsRun(ws, es) && i < |ws|
    ensures ws[i].finished[t] <= 1
    ensures t in ws[i].used ==> (ws[i].finished[t] == 1 <==> t !in ws[i].db.leases)
  {
    Invariants(ws, es, i);
  }

  /** The "payload changed" result of the transition script is unreachable. */
  lemma NeverPayloadChanged(ws: seq<World>, es: seq<Event>, i: nat)
    requires IsRun(ws, es) && i < |es| && es[i].Transition?
    ensures es[i].expected.Encoded? && Transitioned(ws[i], es[i]).1 in {0, 1}
  {
    Invariants(ws, es, i);
    TokensStep(ws[i], es[i]);
  }

  lemma FinishedStep(w: World, e: Event, t: string)
    requires Enabled(w, e)
    ensures w.finished[t] <= Step(w, e).finished[t]
  {
  }

  /** A finished lease never comes back, through Renew or otherwise. */
  lemma {:induction false} FinishedForever(ws: seq<World>, es: seq<Event>, i: nat, j: nat, t: string)
    requires IsRun(ws, es) && i <= j < |ws| && ws[i].finished[t] >= 1
    ensures t !in ws[j].db.leases && ws[j].finished[t] == 1
  {
    if i < j {
      FinishedForever(ws, es, i, j - 1, t);
      FinishedStep(ws[j - 1], es[j - 1], t);
    }
    TokensAlways(ws, es, j);
    FinishedOnce(ws[j], t);
  }

  lemma TokensAlways(ws: seq<World>, es: seq<Event>, i: nat)
    requires IsRun(ws, es) && i < |ws|
    ensures TokensOk(ws[i])
  {
    Invariants(ws, es, i);
  }

  lemma FinishedOnce(w: World, t: string)
    requires TokensOk(w) && w.finished[t] >= 1
    ensures t !in w.db.leases && w.finished[t] == 1
  {
  }

  // ---- a lease lasts as long as it was given ----

  /** The event gives the lease under `t` its time: a Reserve that takes a job under it, or a Renew. */
  predicate Gives(w: World, e: Event, t: string) {
    || (e.Reserve? && e.token == t && Reserved(w, e).1.Some?)
    || (e.Renew? && e.token == t && t in w.db.leases)
  }

  /** Unless the event gives the lease time, it keeps the expiry of the lease or removes it. */
  lemma ExpiryStays(w: World, e: Event, t: string)
    requires TokensOk(w) && Enabled(w, e) && t in w.used && !Gives(w, e, t)
    ensures t in Step(w, e).used
    ensures t in Step(w, e).db.leases ==> t in w.db.leases && Step(w, e).db.leases[t] == w.db.leases[t]
  {
    if e.Reserve? {
      ReserveShape(w.db, e.queue, e.due, e.token, Deadline(w, e.leaseMs), Ms(e.at), e.batch);
    } else if e.Transition? {
      var next := Moved(e.expected.job, e.move);
      TransitionShape(w.db, e.token, e.expected, Encoded(next), Trim(next.queue), Ms(MoveTime(e.expected.job, e.move)), Ms(e.at));
    }
  }

  lemma GivenExpiry(w: World, e: Event, t: string)
    requires Enabled(w, e) && Gives(w, e, t) && TokensOk(w)
    ensures t in Step(w, e).used && t in Step(w, e).db.leases
    ensures Step(w, e).db.leases[t].expireAtMs == Ms(w.now) + e.leaseMs
  {
    if e.Reserve? {
      ReserveShape(w.db, e.queue, e.due, e.token, Deadline(w, e.leaseMs), Ms(e.at), e.batch);
    }
  }

  lemma {:induction false} ExpiryHolds(ws: seq<World>, es: seq<Event>, i: nat, j: nat, t: string)
    requires IsRun(ws, es) && i < j < |ws| && Gives(ws[i], es[i], t)
    requires forall k :: i < k < j ==> !Gives(ws[k], es[k], t)
    ensures t in ws[j].used
    ensures t in ws[j].db.leases ==> ws[j].db.leases[t].expireAtMs == Ms(ws[i].now) + es[i].leaseMs
    decreases j
  {
    TokensAlways(ws, es, j - 1);
    if j == i + 1 {
      GivenExpiry(ws[i], es[i], t);
    } else {
      ExpiryHolds(ws, es, i, j - 1, t);
      ExpiryStays(ws[j - 1], es[j - 1], t);
    }
  }

  /** No lease expires before the time that its Reserve or its latest Renew gave it is over. */
  lemma NoEarlyExpiry(ws: seq<World>, es: seq<Event>, i: nat, j: nat, t: string)
    requires IsRun(ws, es) && i < j < |es| && Gives(ws[i], es[i], t) && es[j] == Expire(t)
    requires forall k :: i < k < j ==> !Gives(ws[k], es[k], t)
    ensures Ms(ws[j].now) >= Ms(ws[i].now) + es[i].leaseMs
  {
    ExpiryHolds(ws, es, i, j, t);
  }
}
