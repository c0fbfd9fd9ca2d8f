/** The Redis jobs backend as an object: each script and method changes the stored keys in place and
    is specified by the functions of `RedisQueue`. Clock readings and random tokens are parameters. */
module RedisBackends {
  import opened Text
  import opened Jobs
  import opened RedisQueue
  import opened RedisPolls

  /** The defaults Enqueue fills in. */
  function Stamped(j: Job, now: Time): Job {
    var created := if j.createdAt == 0 then now else j.createdAt;
    j.(createdAt := created, runAt := if j.runAt == 0 then created else j.runAt)
  }

  lemma {:induction false} MinExists(s: set<Payload>, z: Zset)
    requires s != {} && forall p :: p in s ==> p in z
    ensures exists p :: p in s && forall q :: q in s ==> z[p] <= z[q]
    decreases |s|
  {
    var x := AnyOf(s);
    if s == {x} {
    } else {
      var rest := s - {x};
      MinExists(rest, z);
      var p :| p in rest && forall q :: q in rest ==> z[p] <= z[q];
      var least := if z[x] <= z[p] then x else p;
      assert least in s && forall q :: q in s ==> z[least] <= z[q] by {
        forall q | q in s ensures z[least] <= z[q] {
          assert q == x || q in rest;
        }
      }
    }
  }

  /** `ZRANGEBYSCORE z -inf nowMs LIMIT 0 batch`. */
  method RangeByScore(z: Zset, nowMs: nat, batch: nat) returns (due: seq<Payload>)
    ensures DueBatch(z, nowMs, batch, due)
  {
    due := [];
    var rest := set p | p in z && z[p] <= nowMs;
    while |due| < batch && rest != {}
      invariant |due| <= batch
      invariant forall p :: p in rest <==> p in z && z[p] <= nowMs && p !in due
      invariant forall i :: 0 <= i < |due| ==> due[i] in z && z[due[i]] <= nowMs
      invariant forall i, j :: 0 <= i < j < |due| ==> due[i] != due[j] && z[due[i]] <= z[due[j]]
      invariant forall i, p :: 0 <= i < |due| && p in rest ==> z[due[i]] <= z[p]
      decreases batch - |due|
    {
      MinExists(rest, z);
      var p :| p in rest && forall q :: q in rest ==> z[p] <= z[q];
      due := due + [p];
      rest := rest - {p};
    }
  }

  /** The queue's zset gains exactly this job under this score. */
  ghost predicate Delays(before: Db, after: Db, queue: string, job: Job, score: nat) {
    && after.ready == before.ready && after.leases == before.leases
    && after.delayed == before.delayed[queue := (if queue in before.delayed then before.delayed[queue] else map[])[Encoded(job) := score]]
  }

  /** The queue's ready list gains exactly this job, at its end. */
  ghost predicate Readies(before: Db, after: Db, queue: string, job: Job) {
    && after.delayed == before.delayed && after.leases == before.leases
    && after.ready == before.ready[queue := (if queue in before.ready then before.ready[queue] else []) + [Encoded(job)]]
  }

  class RedisBackend {
    const batch: nat
    const dlqSuffix: string
    var closed: bool
    var ready: map<string, seq<Payload>>
    var delayed: map<string, Zset>
    var leases: map<string, LeaseKey>

    constructor (transferBatch: int, suffix: string)
      ensures batch >= 1 && Trim(dlqSuffix) != "" && !closed
      ensures batch == if transferBatch > 0 then transferBatch else 100
      ensures dlqSuffix == if Trim(suffix) != "" then suffix else ".dlq"
      ensures Snapshot() == Db(map[], map[], map[])
    {
      batch := if transferBatch <= 0 then 100 else transferBatch;
      dlqSuffix := if Trim(suffix) == "" then ".dlq" else suffix;
      closed := false;
      ready, delayed, leases := map[], map[], map[];
      new;
      assert Trim(".dlq") == ".dlq" by { TrimFixesTrimmed(".dlq"); }
    }

    ghost function Snapshot(): Db
      reads this
    {
      Db(ready, delayed, leases)
    }

    /** The reserve script. */
    method ReserveScript(queue: string, nowMs: nat, expireAtMs: nat, token: string) returns (r: Option<Payload>, ghost due: seq<Payload>)
      modifies this`ready, this`delayed, this`leases
      ensures DueBatch(Delayed(old(Snapshot()), queue), nowMs, batch, due)
      ensures (Snapshot(), r) == ReserveEffect(old(Snapshot()), queue, due, token, expireAtMs)
    {
      var found := RangeByScore(if queue in delayed then delayed[queue] else map[], nowMs, batch);
      due := found;
      for i := 0 to |found|
        invariant leases == old(leases)
        invariant Transfer(Snapshot(), queue, found[i..]) == Transfer(old(Snapshot()), queue, found)
      {
        var payload := found[i];
        assert found[i..][0] == payload && found[i..][1..] == found[i + 1..];
        ghost var before := Snapshot();
        ready := ready[queue := (if queue in ready then ready[queue] else []) + [payload]];
        delayed := delayed[queue := (if queue in delayed then delayed[queue] else map[]) - {payload}];
        assert Snapshot() == MoveOne(before, queue, payload);
      }
      var list := if queue in ready then ready[queue] else [];
      if list == [] {
        return None, due;
      }
      ready := ready[queue := list[1..]];
      leases := leases[token := LeaseKey(list[0], expireAtMs)];
      r := Some(list[0]);
    }

    /** The get-and-delete script. */
    method GetAndDelete(token: string) returns (value: Option<Payload>)
      modifies this`leases
      ensures Snapshot() == DeleteLease(old(Snapshot()), token)
      ensures value == if token in old(leases) then Some(old(leases)[token].payload) else None
    {
      if token !in leases {
        assert leases == leases - {token};
        return None;
      }
      value := Some(leases[token].payload);
      leases := leases - {token};
    }

    /** The transition script. */
    method TransitionScript(token: string, expected: Payload, next: Payload, queue: string, runAtMs: nat, nowMs: nat) returns (code: int)
      modifies this`ready, this`delayed, this`leases
      ensures (Snapshot(), code) == TransitionEffect(old(Snapshot()), token, expected, next, queue, runAtMs, nowMs)
    {
      if token !in leases {
        return 0;
      }
      if leases[token].payload != expected {
        return -1;
      }
      leases := leases - {token};
      if runAtMs <= nowMs {
        ready := ready[queue := (if queue in ready then ready[queue] else []) + [next]];
      } else {
        delayed := delayed[queue := (if queue in delayed then delayed[queue] else map[])[next := runAtMs]];
      }
      code := 1;
    }

    /** Polls until a usable job is leased. Each poll is a clock reading and a fresh token; running out
        of polls stands for a cancelled context. Payloads that cannot be used are acknowledged away,
        and nothing else is lost; the first one in line that can be used is handed out, if there are
        enough polls to come to it. `due` is what the first poll finds due. */
    method Reserve(queue: string, leaseFor: int, polls: seq<Poll>)
      returns (r: Result<(Job, Lease)>, ghost discarded: seq<Payload>, ghost due: seq<Payload>)
      requires FreshTokens(Snapshot(), polls)
      modifies this`ready, this`delayed, this`leases
      ensures closed ==> r == Err(Closed)
      ensures !closed && Trim(queue) == "" ==> r == Err(InvalidArgument)
      ensures closed || Trim(queue) == "" ==> Snapshot() == old(Snapshot())
      ensures !closed && Trim(queue) != "" ==> r.Ok? || r == Err(Cancelled)
      ensures r.Ok? ==> exists i :: 0 <= i < |polls| && Granted(Snapshot(), r.value.0, r.value.1, Trim(queue), leaseFor, polls[i])
      ensures OnlyUnusableLost(old(Snapshot()), Snapshot(), discarded, Trim(queue))
      ensures !closed && Trim(queue) != "" && polls != [] ==>
        && DueBatch(Delayed(old(Snapshot()), Trim(queue)), Ms(polls[0].0), batch, due)
        && LeasedInTurn(Snapshot(), r, List(old(Snapshot()), Trim(queue)) + due, Trim(queue), polls)
    {
      discarded, due := [], [];
      KeepsAll(Snapshot(), Snapshot(), Trim(queue));
      if closed {
        return Err(Closed), discarded, due;
      }
      if Trim(queue) == "" {
        return Err(InvalidArgument), discarded, due;
      }
      r, discarded, due := ReserveFrom(Trim(queue), leaseFor, polls);
    }

    method ReserveFrom(q: string, leaseFor: int, polls: seq<Poll>)
      returns (r: Result<(Job, Lease)>, ghost discarded: seq<Payload>, ghost due: seq<Payload>)
      requires !closed && FreshTokens(Snapshot(), polls)
      modifies this`ready, this`delayed, this`leases
      ensures r.Ok? || r == Err(Cancelled)
      ensures r.Ok? ==> exists i :: 0 <= i < |polls| && Granted(Snapshot(), r.value.0, r.value.1, q, leaseFor, polls[i])
      ensures OnlyUnusableLost(old(Snapshot()), Snapshot(), discarded, q)
      ensures polls != [] ==>
        && DueBatch(Delayed(old(Snapshot()), q), Ms(polls[0].0), batch, due)
        && LeasedInTurn(Snapshot(), r, List(old(Snapshot()), q) + due, q, polls)
    {
      ghost var dues, last;
      r, dues, last := PollUntilLeased(q, leaseFor, polls);
      discarded := EndLoses(old(Snapshot()), Snapshot(), q, leaseFor, batch, polls, dues, last, r);
      if polls != [] {
        EndInTurn(old(Snapshot()), Snapshot(), q, leaseFor, batch, polls, dues, last, r);
      }
      due := if dues == [] then last else dues[0];
      if r.Ok? {
        PollGrants(AfterPolls(old(Snapshot()), q, leaseFor, polls[..|dues|], dues), q, leaseFor, polls[|dues|], last);
      }
    }

    /** The polling loop: polls in vain, then one that takes a job, or the context is done. */
    method PollUntilLeased(q: string, leaseFor: int, polls: seq<Poll>)
      returns (r: Result<(Job, Lease)>, ghost dues: seq<seq<Payload>>, ghost due: seq<Payload>)
      requires !closed && FreshTokens(Snapshot(), polls)
      modifies this`ready, this`delayed, this`leases
      ensures Ended(old(Snapshot()), Snapshot(), q, leaseFor, batch, polls, dues, due, r)
    {
      dues, due := [], [];
      for i := 0 to |polls|
        invariant |dues| == i && InVain(old(Snapshot()), q, leaseFor, batch, polls[..i], dues)
        invariant Snapshot() == AfterPolls(old(Snapshot()), q, leaseFor, polls[..i], dues)
      {
        StillFresh(old(Snapshot()), q, leaseFor, batch, polls, dues);
        var (now, token) := polls[i];
        var job;
        job, due := PollOnce(q, leaseFor, now, token);
        if job.Some? {
          return Ok((job.value, LeaseOf(job.value, token, q, now, leaseFor))), dues, due;
        }
        OnePollMore(old(Snapshot()), q, leaseFor, batch, polls, dues, due);
        dues := dues + [due];
      }
      r := Err(Cancelled);
    }

    /** One round of the polling loop. */
    method PollOnce(queue: string, leaseFor: int, now: Time, token: string)
      returns (job: Option<Job>, ghost due: seq<Payload>)
      requires !closed && token !in leases && token != "" && Trim(token) == token
      modifies this`ready, this`delayed, this`leases
      ensures DueBatch(Delayed(old(Snapshot()), queue), Ms(now), batch, due)
      ensures (Snapshot(), job) == PollEffect(old(Snapshot()), queue, leaseFor, (now, token), due)
    {
      var p;
      p, due := ReserveScript(queue, Ms(now), Deadline(now, leaseFor), token);
      if p.None? || Blank(p.value) {
        return None, due;
      }
      job := Decoded(p.value, queue);
      if job.None? {
        var _ := Ack(token);
      }
    }

    /** `stamp` is the clock reading for an unset creation time, `now` the one the run time is compared
        with. A run time that is set is kept: the job waits in the zset under that millisecond until it
        is past, or goes to the end of the ready list. An unset run time is the creation time. */
    method Enqueue(job: Job, stamp: Time, now: Time) returns (r: Result<()>)
      modifies this`ready, this`delayed
      ensures r == if closed then Err(Closed) else if !Valid(job) then Err(Validation) else Ok(())
      ensures r == Err(Validation) <==>
        !closed && (Trim(job.id) == "" || Trim(job.name) == "" || Trim(job.queue) == "" || job.payload == [] || job.attempt < 0
                    || job.maxAttempts < 0 || 0 < job.maxAttempts < job.attempt)
      ensures Snapshot() == if r.Ok? then EnqueueEffect(old(Snapshot()), Stamped(job, stamp), now) else old(Snapshot())
      ensures r.Ok? ==>
        var q, created := Trim(job.queue), if job.createdAt == 0 then stamp else job.createdAt;
        var kept, stamped := job.(createdAt := created), job.(createdAt := created, runAt := created);
        && (job.runAt > now ==> Delays(old(Snapshot()), Snapshot(), q, kept, job.runAt / 1_000_000))
        && (0 < job.runAt <= now ==> Readies(old(Snapshot()), Snapshot(), q, kept))
        && (job.runAt == 0 && created > now ==> Delays(old(Snapshot()), Snapshot(), q, stamped, created / 1_000_000))
        && (job.runAt == 0 && created <= now ==> Readies(old(Snapshot()), Snapshot(), q, stamped))
    {
      if closed {
        return Err(Closed);
      }
      if !Valid(job) {
        return Err(Validation);
      }
      var j := Stamped(job, stamp);
      var queue := Trim(j.queue);
      if j.runAt <= now {
        ready := ready[queue := (if queue in ready then ready[queue] else []) + [Encoded(j)]];
      } else {
        delayed := delayed[queue := (if queue in delayed then delayed[queue] else map[])[Encoded(j) := Ms(j.runAt)]];
      }
      r := Ok(());
    }

    method Ack(token: string) returns (r: Result<()>)
      modifies this`leases
      ensures r == if closed then Err(Closed) else if Trim(token) == "" then Err(InvalidArgument) else Ok(())
      ensures Snapshot() == if r.Ok? then DeleteLease(old(Snapshot()), Trim(token)) else old(Snapshot())
    {
      if closed {
        return Err(Closed);
      }
      if Trim(token) == "" {
        return Err(InvalidArgument);
      }
      var _ := GetAndDelete(Trim(token));
      r := Ok(());
    }

    /** `readLeasedJob`. */
    function ReadLease(token: string, leaseQueue: string): (r: Result<(Payload, Job)>)
      reads this
      ensures r == Err(Closed) <==> closed
      ensures r == Err(InvalidArgument) <==> !closed && Trim(token) == ""
      ensures r == Err(NotFound) <==> !closed && Trim(token) != "" && Trim(token) !in leases
      ensures r == Err(Validation) || r.Ok? <==> !closed && Trim(token) != "" && Trim(token) in leases
      ensures r == Err(Validation) ==> Decoded(leases[Trim(token)].payload, Trim(leaseQueue)) == None
      ensures r.Ok? ==> r.value.0 == leases[Trim(token)].payload && Decoded(r.value.0, Trim(leaseQueue)) == Some(r.value.1)
    {
      var t := Trim(token);
      if closed then Err(Closed)
      else if t == "" then Err(InvalidArgument)
      else if t !in leases then Err(NotFound)
      else
        var p := leases[t].payload;
        var j := Decoded(p, Trim(leaseQueue));
        if j.None? then Err(Validation) else Ok((p, j.value))
    }

    /** On success the lease is gone and the job is queued again with one more attempt; on failure
        nothing changed. */
    method Nack(token: string, leaseQueue: string, nextRunAt: Time, now: Time, reason: Option<string>, failedAt: string) returns (r: Result<()>)
      modifies this`ready, this`delayed, this`leases
      ensures r.Ok? <==> old(ReadLease(token, leaseQueue)).Ok?
      ensures r.Err? ==> Snapshot() == old(Snapshot()) && r.error == old(ReadLease(token, leaseQueue)).error
      ensures r.Ok? ==>
        var (p, j) := old(ReadLease(token, leaseQueue)).value;
        var retry := RetryOf(j, nextRunAt, now, reason, failedAt);
        var rest := DeleteLease(old(Snapshot()), Trim(token));
        Snapshot() == Put(rest, Trim(j.queue), Encoded(retry), Ms(retry.runAt), Ms(retry.runAt) <= Ms(now))
    {
      var lease := ReadLease(token, leaseQueue);
      if lease.Err? {
        return Err(lease.error);
      }
      var (p, j) := lease.value;
      var retry := RetryOf(j, nextRunAt, now, reason, failedAt);
      var code := TransitionScript(Trim(token), p, Encoded(retry), Trim(retry.queue), Ms(retry.runAt), Ms(now));
      assert code == 1;
      r := Ok(());
    }

    /** On success the lease is gone and the job is in the dead-letter queue's ready list. */
    method MoveToDLQ(token: string, leaseQueue: string, now: Time, reason: Option<string>, failedAt: string) returns (r: Result<()>)
      modifies this`ready, this`delayed, this`leases
      ensures r.Ok? <==> old(ReadLease(token, leaseQueue)).Ok?
      ensures r.Err? ==> Snapshot() == old(Snapshot()) && r.error == old(ReadLease(token, leaseQueue)).error
      ensures r.Ok? ==>
        var (p, j) := old(ReadLease(token, leaseQueue)).value;
        var dead := DeadLetterOf(j, Trim(j.queue), dlqSuffix, reason, failedAt);
        Snapshot() == Rpush(DeleteLease(old(Snapshot()), Trim(token)), Trim(dead.queue), Encoded(dead))
    {
      var lease := ReadLease(token, leaseQueue);
      if lease.Err? {
        return Err(lease.error);
      }
      var (p, j) := lease.value;
      var dead := DeadLetterOf(j, Trim(j.queue), dlqSuffix, reason, failedAt);
      var code := TransitionScript(Trim(token), p, Encoded(dead), Trim(dead.queue), Ms(now), Ms(now));
      assert code == 1;
      r := Ok(());
    }

    /** PEXPIRE from the clock reading `now` on. */
    method Renew(token: string, leaseFor: int, now: Time) returns (r: Result<()>)
      modifies this`leases
      ensures r == if closed then Err(Closed) else if Trim(token) == "" then Err(InvalidArgument)
                   else if Trim(token) in old(leases) then Ok(()) else Err(NotFound)
      ensures Snapshot() == if r.Ok? then Hold(old(Snapshot()), Trim(token), old(leases)[Trim(token)].(expireAtMs := Deadline(now, leaseFor)))
                            else old(Snapshot())
      ensures r.Ok? ==>
        Lasts(leases[Trim(token)].expireAtMs, now + (if leaseFor > 0 then leaseFor else 30_000_000_000), now, leaseFor)
    {
      DeadlineLasts(now, leaseFor);
      var t := Trim(token);
      if closed {
        return Err(Closed);
      }
      if t == "" {
        return Err(InvalidArgument);
      }
      if t !in leases {
        return Err(NotFound);
      }
      leases := leases[t := leases[t].(expireAtMs := Deadline(now, leaseFor))];
      r := Ok(());
    }
  }
}
