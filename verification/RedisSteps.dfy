/** The methods of the Redis backend as steps of `RedisRuns`: what the contract of each method says about
    the stored keys is what the events of a run do to them, so the theorems about all runs speak of these
    methods, called by any number of clients. */
module RedisSteps {
  import opened Text
  import opened Jobs
  import opened RedisQueue
  import opened RedisPolls
  import R = RedisRuns

  lemma EnqueueIsStep(w: R.World, job: Job)
    requires R.Enabled(w, R.Enqueue(job, w.now))
    ensures R.Step(w, R.Enqueue(job, w.now)).db == EnqueueEffect(w.db, job, w.now)
  {
  }

  /** The Reserve event a poll sends. */
  function ReserveOf(w: R.World, queue: string, leaseFor: int, token: string, batch: nat, due: seq<Payload>): R.Event {
    R.Reserve(queue, w.now, LeaseMs(leaseFor), token, batch, due)
  }

  /** A poll is one Reserve, followed by an Ack when its payload cannot be used. */
  lemma PollIsSteps(w: R.World, queue: string, leaseFor: int, token: string, batch: nat, due: seq<Payload>)
    requires R.Enabled(w, ReserveOf(w, queue, leaseFor, token, batch, due))
    ensures var taken := R.Step(w, ReserveOf(w, queue, leaseFor, token, batch, due));
            var after := PollEffect(w.db, queue, leaseFor, (w.now, token), due).0;
      && R.Enabled(taken, R.Ack(token))
      && after == if Dropped(w.db, queue, leaseFor, (w.now, token), due) == [] then taken.db else R.Step(taken, R.Ack(token)).db
  {
    var e := ReserveOf(w, queue, leaseFor, token, batch, due);
    ReserveShape(w.db, queue, due, token, R.Deadline(w, e.leaseMs), Ms(w.now), batch);
  }

  lemma AckIsStep(w: R.World, token: string)
    requires R.Enabled(w, R.Ack(token))
    ensures R.Step(w, R.Ack(token)).db == DeleteLease(w.db, token)
  {
    assert token !in w.db.leases ==> w.db.leases - {token} == w.db.leases;
  }

  lemma RenewIsStep(w: R.World, token: string, leaseFor: int)
    requires R.Enabled(w, R.Renew(token, LeaseMs(leaseFor))) && token in w.db.leases
    ensures R.Step(w, R.Renew(token, LeaseMs(leaseFor))).db
         == Hold(w.db, token, w.db.leases[token].(expireAtMs := Deadline(w.now, leaseFor)))
  {
  }

  /** A Nack is a Read and, with nothing in between, this transition. */
  lemma NackIsStep(w: R.World, token: string, nextRunAt: Time, reason: Option<string>, failedAt: string)
    requires token in w.db.leases && w.db.leases[token].payload.Encoded?
    requires R.Enabled(w, R.Transition(token, w.db.leases[token].payload, R.Retry(nextRunAt, w.now, reason, failedAt), w.now))
    ensures var p := w.db.leases[token].payload;
            var retry := RetryOf(p.job, nextRunAt, w.now, reason, failedAt);
      R.Step(w, R.Transition(token, p, R.Retry(nextRunAt, w.now, reason, failedAt), w.now)).db
        == Put(DeleteLease(w.db, token), Trim(p.job.queue), Encoded(retry), Ms(retry.runAt), Ms(retry.runAt) <= Ms(w.now))
  {
  }

  lemma MoveToDLQIsStep(w: R.World, token: string, suffix: string, reason: Option<string>, failedAt: string)
    requires token in w.db.leases && w.db.leases[token].payload.Encoded?
    requires R.Enabled(w, R.Transition(token, w.db.leases[token].payload, R.DeadLetter(suffix, w.now, reason, failedAt), w.now))
    ensures var p := w.db.leases[token].payload;
            var dead := DeadLetterOf(p.job, Trim(p.job.queue), suffix, reason, failedAt);
      R.Step(w, R.Transition(token, p, R.DeadLetter(suffix, w.now, reason, failedAt), w.now)).db
        == Rpush(DeleteLease(w.db, token), Trim(dead.queue), Encoded(dead))
  {
  }
}
