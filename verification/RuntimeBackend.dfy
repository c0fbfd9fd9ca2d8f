/** The lease-aware backend over a transport, in its own in-place form: a map of leases under a mutex
    and deliveries that are completed once. Each method below is what one call does when no other call
    comes between its steps; its mutex section is a step of `RuntimeRuns`, which covers the
    interleavings. */
module RuntimeBackends {
  import opened Text
  import opened Jobs
  import R = RuntimeRuns

  /** What the transport callback finds in the delivery's channel: nothing yet, or the error it has to
      return (`None` is success). */
  datatype Completion = Pending | Completed(error: Option<Error>)

  class Delivery {
    const id: nat
    const job: Job
    var done: Completion

    constructor (id: nat, job: Job)
      ensures this.id == id && this.job == job && done == Pending
    {
      this.id, this.job := id, job;
      done := Pending;
    }

    /** Only the first completion counts. */
    method Complete(error: Option<Error>)
      modifies this
      ensures done == if old(done) == Pending then Completed(error) else old(done)
    {
      if done == Pending {
        done := Completed(error);
      }
    }
  }

  datatype LeaseState = LeaseState(lease: Lease, delivery: Delivery)

  class RuntimeBackend {
    const dlqSuffix: string
    var leases: map<string, LeaseState>
    var closed: bool
    /** The jobs the transport has accepted. */
    var enqueued: seq<Job>

    constructor (suffix: string)
      ensures Valid() && leases == map[] && !closed && enqueued == [] && dlqSuffix == suffix
    {
      dlqSuffix := suffix;
      leases, closed, enqueued := map[], false, [];
    }

    ghost function Deliveries(): set<Delivery>
      reads this
    {
      set t | t in leases :: leases[t].delivery
    }

    /** The part of the world of `RuntimeRuns` that the mutex guards. */
    ghost predicate Shows(w: R.World)
      reads this
    {
      w.closed == closed && w.leases == map t | t in leases :: leases[t].delivery.id
    }

    /** Every lease stands for its own delivery, whose callback is still waiting; none survives Close. */
    ghost predicate Valid()
      reads this, Deliveries()
    {
      && (forall t :: t in leases ==> leases[t].delivery.done == Pending)
      && (forall t, u :: t in leases && u in leases && leases[t].delivery == leases[u].delivery ==> t == u)
      && (closed ==> leases == map[])
    }

    /** The mutex section of Reserve, for a delivery taken from the channel and a new token. Either the
        job is leased and its callback waits, or the backend is closed and the callback fails. */
    method Register(queue: string, delivery: Delivery, token: string, now: Time, leaseFor: int)
      returns (r: Result<(Job, Lease)>)
      requires Valid() && delivery.done == Pending && delivery !in Deliveries() && token !in leases
      modifies this`leases, delivery
      ensures Valid()
      ensures r.Ok? <==> !closed
      ensures r.Ok? ==>
        && r.value.0 == delivery.job
        && r.value.1 == Lease(Trim(delivery.job.id), token, Trim(queue), now + LeaseTime(leaseFor), delivery.job.attempt)
        && leases == old(leases)[token := LeaseState(r.value.1, delivery)] && delivery.done == Pending
      ensures r.Err? ==> r.error == Error.Closed && leases == old(leases) && delivery.done == Completed(Some(Error.Closed))
      ensures forall w: R.World, c: nat ::
        old(Shows(w)) && c in w.clients && w.clients[c] == R.Receiving(delivery.id, token) ==> Shows(R.Step(w, R.Register(c)))
    {
      var lease := Lease(Trim(delivery.job.id), token, Trim(queue), now + LeaseTime(leaseFor), delivery.job.attempt);
      if closed {
        delivery.Complete(Some(Error.Closed));
        return Err(Error.Closed);
      }
      leases := leases[token := LeaseState(lease, delivery)];
      r := Ok((delivery.job, lease));
    }

    /** Taking a lease out of the table: the caller becomes the only one who can decide about it. */
    method PopLease(lease: Lease) returns (r: Result<LeaseState>)
      requires Valid()
      modifies this`leases
      ensures Valid()
      ensures r.Ok? <==> Trim(lease.token) != "" && Trim(lease.token) in old(leases)
      ensures r.Ok? ==>
        && r.value == old(leases)[Trim(lease.token)] && leases == old(leases) - {Trim(lease.token)}
        && r.value.delivery !in Deliveries()
      ensures r.Err? ==> leases == old(leases) && r.error == if Trim(lease.token) == "" then InvalidArgument else NotFound
      ensures Trim(lease.token) != "" ==> forall w: R.World, c: nat, a: R.Action ::
        old(Shows(w)) && c !in w.clients ==> Shows(R.Step(w, R.Pop(c, Trim(lease.token), a)))
    {
      var token := Trim(lease.token);
      if token == "" {
        return Err(InvalidArgument);
      }
      if token !in leases {
        return Err(NotFound);
      }
      r := Ok(leases[token]);
      leases := leases - {token};
    }

    /** Ack of a live lease lets the callback return success; Ack of anything else changes nothing. */
    method Ack(lease: Lease) returns (r: Result<()>)
      requires Valid()
      modifies this`leases, Deliveries()
      ensures Valid()
      ensures r.Ok? <==> Trim(lease.token) != "" && Trim(lease.token) in old(leases)
      ensures r.Ok? ==>
        && leases == old(leases) - {Trim(lease.token)}
        && old(leases)[Trim(lease.token)].delivery.done == Completed(None)
      ensures r.Err? ==> leases == old(leases) && r.error == if Trim(lease.token) == "" then InvalidArgument else NotFound
    {
      var popped := PopLease(lease);
      if popped.Err? {
        return Err(popped.error);
      }
      popped.value.delivery.Complete(None);
      r := Ok(());
    }

    /** Nack of a live lease: the callback succeeds exactly when the retry copy was accepted, and the
        copy carries one more attempt. `inTime` says that the context outlived the wait for the retry
        time, `accepted` that the transport took the job. */
    method Nack(lease: Lease, nextRunAt: Time, now: Time, reason: Option<string>, failedAt: string,
                inTime: bool, accepted: bool) returns (r: Result<()>)
      requires Valid()
      modifies this`leases, this`enqueued, Deliveries()
      ensures Valid()
      ensures r.Ok? <==> Trim(lease.token) != "" && Trim(lease.token) in old(leases) && accepted && (inTime || nextRunAt <= now)
      ensures Trim(lease.token) != "" && Trim(lease.token) in old(leases) ==>
        && leases == old(leases) - {Trim(lease.token)}
        && old(leases)[Trim(lease.token)].delivery.done.Completed?
        && (r.Ok? <==> old(leases)[Trim(lease.token)].delivery.done == Completed(None))
        && enqueued == old(enqueued)
             + (if r.Ok? then [RetryOf(old(leases)[Trim(lease.token)].delivery.job, nextRunAt, now, reason, failedAt)] else [])
        && (r.Err? ==> r.error == if nextRunAt > now && !inTime then Cancelled else Retryable)
      ensures !(Trim(lease.token) != "" && Trim(lease.token) in old(leases)) ==>
        leases == old(leases) && enqueued == old(enqueued) && r == Err(if Trim(lease.token) == "" then InvalidArgument else NotFound)
    {
      var popped := PopLease(lease);
      if popped.Err? {
        return Err(popped.error);
      }
      var delivery := popped.value.delivery;
      var retry := RetryOf(delivery.job, nextRunAt, now, reason, failedAt);
      if retry.runAt > now && !inTime {
        delivery.Complete(Some(Cancelled));
        return Err(Cancelled);
      }
      if !accepted {
        delivery.Complete(Some(Transport));
        return Err(Retryable);
      }
      enqueued := enqueued + [retry];
      delivery.Complete(None);
      r := Ok(());
    }

    /** The dead-letter copy keeps its source queue in a header; the callback succeeds exactly when the
        copy was accepted. */
    method MoveToDLQ(lease: Lease, reason: Option<string>, failedAt: string, accepted: bool) returns (r: Result<()>)
      requires Valid()
      modifies this`leases, this`enqueued, Deliveries()
      ensures Valid()
      ensures r.Ok? <==> Trim(lease.token) != "" && Trim(lease.token) in old(leases) && accepted
      ensures Trim(lease.token) != "" && Trim(lease.token) in old(leases) ==>
        var state := old(leases)[Trim(lease.token)];
        && leases == old(leases) - {Trim(lease.token)}
        && state.delivery.done.Completed?
        && (r.Ok? <==> state.delivery.done == Completed(None))
        && enqueued == old(enqueued)
             + (if r.Ok? then [DeadLetterOf(state.delivery.job, SourceQueue(state.delivery.job, lease), dlqSuffix, reason, failedAt)] else [])
        && (r.Err? ==> r.error == Retryable)
      ensures !(Trim(lease.token) != "" && Trim(lease.token) in old(leases)) ==>
        leases == old(leases) && enqueued == old(enqueued) && r == Err(if Trim(lease.token) == "" then InvalidArgument else NotFound)
    {
      var popped := PopLease(lease);
      if popped.Err? {
        return Err(popped.error);
      }
      var delivery := popped.value.delivery;
      var copy := DeadLetterOf(delivery.job, SourceQueue(delivery.job, lease), dlqSuffix, reason, failedAt);
      if !accepted {
        delivery.Complete(Some(Transport));
        return Err(Retryable);
      }
      enqueued := enqueued + [copy];
      delivery.Complete(None);
      r := Ok(());
    }

    /** Renew moves the expiry of a live lease and nothing else: a finished lease is not revived. */
    method Renew(lease: Lease, now: Time, leaseFor: int) returns (r: Result<()>)
      requires Valid()
      modifies this`leases
      ensures Valid() && leases.Keys == old(leases.Keys)
      ensures r.Ok? <==> Trim(lease.token) != "" && Trim(lease.token) in leases
      ensures r.Err? ==> r.error == if Trim(lease.token) == "" then InvalidArgument else NotFound
      ensures forall t :: t in leases ==>
        && leases[t].delivery == old(leases)[t].delivery
        && leases[t].lease == if r.Ok? && t == Trim(lease.token) then old(leases)[t].lease.(expireAt := now + LeaseTime(leaseFor))
                              else old(leases)[t].lease
    {
      var token := Trim(lease.token);
      if token == "" {
        return Err(InvalidArgument);
      }
      if token !in leases {
        return Err(NotFound);
      }
      var state := leases[token];
      leases := leases[token := state.(lease := state.lease.(expireAt := now + LeaseTime(leaseFor)))];
      r := Ok(());
    }

    /** The lease timer: a lease that is still there fails its callback, so the transport redelivers. */
    method ExpireLease(token: string)
      requires Valid()
      modifies this`leases, Deliveries()
      ensures Valid() && leases == old(leases) - {token}
      ensures token in old(leases) ==> old(leases)[token].delivery.done == Completed(Some(Conflict))
      ensures forall w: R.World, c: nat ::
        old(Shows(w)) && c !in w.clients && token in w.tokens ==> Shows(R.Step(w, R.TimerFires(c, token)))
    {
      if token in leases {
        var state := leases[token];
        leases := leases - {token};
        state.delivery.Complete(Some(Conflict));
      }
    }

    /** Close empties the table and fails every waiting callback. */
    method Close()
      requires Valid()
      modifies this`leases, this`closed, Deliveries()
      ensures Valid() && closed && leases == map[]
      ensures forall t :: t in old(leases) ==> old(leases)[t].delivery.done == Completed(Some(Error.Closed))
      ensures forall w: R.World, c: nat :: old(Shows(w)) && c !in w.clients ==> Shows(R.Step(w, R.Close(c)))
    {
      if closed {
        return;
      }
      closed := true;
      var states := leases;
      leases := map[];
      var rest := states.Keys;
      while rest != {}
        invariant rest <= states.Keys && leases == map[] && closed
        invariant forall t :: t in states ==>
          states[t].delivery.done == if t in rest then Pending else Completed(Some(Error.Closed))
        decreases |rest|
      {
        var t :| t in rest;
        rest := rest - {t};
        states[t].delivery.Complete(Some(Error.Closed));
      }
    }
  }

  /** The queue a dead letter came from: the job's own, or the lease's when the job names none. */
  function SourceQueue(job: Job, lease: Lease): (q: string)
    ensures Trim(job.queue) != "" ==> q == Trim(job.queue)
    ensures Trim(job.queue) == "" ==> q == Trim(lease.queue)
  {
    if Trim(job.queue) == "" then Trim(lease.queue) else Trim(job.queue)
  }
}
