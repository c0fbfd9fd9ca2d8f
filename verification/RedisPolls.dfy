/** Reserve on values: what one poll does to the stored keys, and what any number of polls that find
    nothing usable leave behind. Times, tokens and the due payloads Redis picks are parameters. */
module RedisPolls {
  import opened Text
  import opened Jobs
  import opened RedisQueue

  /** The job a stored payload stands for in `queue`; `None` when it cannot be decoded or is invalid. */
  function Decoded(p: Payload, queue: string): Option<Job> {
    match p
    case Garbage(_) => None
    case Encoded(j) =>
      var job := if Trim(j.queue) == "" then j.(queue := queue) else j;
      if Valid(job) then Some(job) else None
  }

  /** A valid job is read back as it was stored; a missing queue is the one it was found in; anything
      else that is handed out would have been valid with that queue. */
  lemma DecodedExactly(p: Payload, queue: string)
    ensures p.Encoded? && Valid(p.job) ==> Decoded(p, queue) == Some(p.job)
    ensures p.Encoded? && Trim(p.job.queue) == "" && Valid(p.job.(queue := queue)) ==> Decoded(p, queue) == Some(p.job.(queue := queue))
    ensures Decoded(p, queue).Some? ==> p.Encoded? && Valid(Decoded(p, queue).value) && Decoded(p, queue).value.(queue := p.job.queue) == p.job
  {
  }

  /** The lease time in whole milliseconds, at least one. */
  function LeaseMs(leaseFor: int): (ms: nat)
    ensures leaseFor <= 0 ==> ms == 30_000
    ensures 0 < leaseFor < 1_000_000 ==> ms == 1
    ensures leaseFor >= 1_000_000 ==> ms == Ms(leaseFor) >= 1
  {
    if Ms(LeaseTime(leaseFor)) == 0 then 1 else Ms(LeaseTime(leaseFor))
  }

  function Deadline(now: Time, leaseFor: int): nat {
    Ms(now) + LeaseMs(leaseFor)
  }

  /** Flooring the sum loses at most one millisecond. */
  lemma MsSum(a: Time, d: Time)
    ensures Ms(a) + Ms(d) <= Ms(a + d) <= Ms(a) + Ms(d) + 1
  {
  }

  /** A key that expires at `expireAtMs` was given the lease time at `now`: up to the rounding to whole
      milliseconds it lives until `expireAt`, never longer, except that it lives at least one. */
  ghost predicate Lasts(expireAtMs: nat, expireAt: Time, now: Time, leaseFor: int) {
    && expireAt == now + (if leaseFor > 0 then leaseFor else 30_000_000_000)
    && (if 0 < leaseFor < 1_000_000 then expireAtMs == Ms(now) + 1 else Ms(expireAt) - 1 <= expireAtMs <= Ms(expireAt))
  }

  lemma DeadlineLasts(now: Time, leaseFor: int)
    ensures Lasts(Deadline(now, leaseFor), now + LeaseTime(leaseFor), now, leaseFor)
  {
    MsSum(now, LeaseTime(leaseFor));
    assert Ms(30_000_000_000) == 30_000;
  }

  /** What Reserve hands out for a job taken at `now`. */
  function LeaseOf(job: Job, token: string, queue: string, now: Time, leaseFor: int): Lease {
    Lease(Trim(job.id), token, queue, now + LeaseTime(leaseFor), job.attempt)
  }

  // ---- conservation ----

  ghost function Held(db: Db, id: string): nat {
    JobsIn(db)[id]
  }

  ghost function Lost(lost: seq<Payload>, id: string): nat {
    multiset(Ids(lost))[id]
  }

  /** Every job held before is held after or was dropped on the way. */
  ghost predicate Balanced(before: Db, after: Db, lost: seq<Payload>) {
    forall id :: Held(after, id) + Lost(lost, id) == Held(before, id)
  }

  lemma NothingLost(before: Db, after: Db)
    requires JobsIn(after) == JobsIn(before)
    ensures Balanced(before, after, [])
  {
    assert Ids([]) == [];
  }

  lemma DropBalance(db: Db, token: string)
    requires token in db.leases
    ensures Balanced(db, DeleteLease(db, token), [db.leases[token].payload])
  {
    LeaseDeleted(db, token);
    assert Ids([db.leases[token].payload]) == [IdOf(db.leases[token].payload)];
  }

  lemma LostAppend(lost: seq<Payload>, more: seq<Payload>, id: string)
    ensures Lost(lost + more, id) == Lost(lost, id) + Lost(more, id)
  {
    assert Ids(lost + more) == Ids(lost) + Ids(more);
  }

  lemma BalancedTrans(a: Db, b: Db, c: Db, lost: seq<Payload>, more: seq<Payload>)
    requires Balanced(a, b, lost) && Balanced(b, c, more)
    ensures Balanced(a, c, lost + more)
  {
    forall id ensures Held(c, id) + Lost(lost + more, id) == Held(a, id) {
      LostAppend(lost, more, id);
      assert Held(b, id) + Lost(lost, id) == Held(a, id);
      assert Held(c, id) + Lost(more, id) == Held(b, id);
    }
  }

  /** Balanced, and only payloads that are unusable in the queue were dropped. */
  ghost predicate OnlyUnusableLost(before: Db, after: Db, lost: seq<Payload>, queue: string) {
    Balanced(before, after, lost) && forall i :: 0 <= i < |lost| ==> Decoded(lost[i], queue) == None
  }

  lemma UnusableTrans(a: Db, b: Db, c: Db, lost: seq<Payload>, more: seq<Payload>, queue: string)
    requires OnlyUnusableLost(a, b, lost, queue) && OnlyUnusableLost(b, c, more, queue)
    ensures OnlyUnusableLost(a, c, lost + more, queue)
  {
    BalancedTrans(a, b, c, lost, more);
  }

  // ---- one poll ----

  /** A clock reading and a token. */
  type Poll = (Time, string)

  /** The stored value is blank; Reserve looks again and leaves the lease key to expire. */
  predicate Blank(p: Payload) {
    p.Garbage? && Trim(p.text) == ""
  }

  /** The reserve script, then the Ack that drops a payload which cannot be used. */
  function PollEffect(db: Db, queue: string, leaseFor: int, poll: Poll, due: seq<Payload>): (Db, Option<Job>) {
    var (taken, p) := ReserveEffect(db, queue, due, poll.1, Deadline(poll.0, leaseFor));
    if p.None? || Blank(p.value) then (taken, None)
    else if Decoded(p.value, queue).None? then (DeleteLease(taken, poll.1), None)
    else (taken, Decoded(p.value, queue))
  }

  /** The payload a poll drops, if any. */
  function Dropped(db: Db, queue: string, leaseFor: int, poll: Poll, due: seq<Payload>): seq<Payload> {
    var p := ReserveEffect(db, queue, due, poll.1, Deadline(poll.0, leaseFor)).1;
    if p.None? || Blank(p.value) || Decoded(p.value, queue).Some? then [] else [p.value]
  }

  function Rest(line: seq<Payload>): seq<Payload> {
    if line == [] then [] else line[1..]
  }

  /** A poll takes the head of the line, the ready payloads followed by the due ones: the job it stands
      for is leased for the lease time, or there is none. */
  lemma PollTakesHead(db: Db, queue: string, leaseFor: int, poll: Poll, due: seq<Payload>)
    requires Waiting(db, queue, due)
    ensures var (next, job) := PollEffect(db, queue, leaseFor, poll, due);
            var line := List(db, queue) + due;
      && List(next, queue) == Rest(line)
      && job == (if line == [] then None else Decoded(line[0], queue))
      && (job.Some? ==> next.leases == db.leases[poll.1 := LeaseKey(line[0], Deadline(poll.0, leaseFor))])
      && (forall t :: t in next.leases ==> t == poll.1 || t in db.leases)
  {
    ReserveLine(db, queue, due, poll.1, Deadline(poll.0, leaseFor));
  }

  lemma DropLoses(db: Db, taken: Db, token: string, queue: string)
    requires JobsIn(taken) == JobsIn(db) && token in taken.leases && Decoded(taken.leases[token].payload, queue).None?
    ensures OnlyUnusableLost(db, DeleteLease(taken, token), [taken.leases[token].payload], queue)
  {
    DropBalance(taken, token);
    SameStart(db, taken, DeleteLease(taken, token), [taken.leases[token].payload]);
  }

  lemma SameStart(a: Db, b: Db, c: Db, lost: seq<Payload>)
    requires JobsIn(a) == JobsIn(b) && Balanced(b, c, lost)
    ensures Balanced(a, c, lost)
  {
    forall id ensures Held(c, id) + Lost(lost, id) == Held(a, id) {
      assert Held(c, id) + Lost(lost, id) == Held(b, id);
    }
  }

  lemma KeepsAll(db: Db, taken: Db, queue: string)
    requires JobsIn(taken) == JobsIn(db)
    ensures OnlyUnusableLost(db, taken, [], queue)
  {
    NothingLost(db, taken);
  }

  lemma PollLoses(db: Db, queue: string, leaseFor: int, poll: Poll, due: seq<Payload>)
    requires Waiting(db, queue, due) && poll.1 !in db.leases
    ensures OnlyUnusableLost(db, PollEffect(db, queue, leaseFor, poll, due).0, Dropped(db, queue, leaseFor, poll, due), queue)
  {
    var (taken, p) := ReserveEffect(db, queue, due, poll.1, Deadline(poll.0, leaseFor));
    ReserveCounts(db, queue, due, poll.1, Deadline(poll.0, leaseFor));
    if p.None? || Blank(p.value) || Decoded(p.value, queue).Some? {
      KeepsAll(db, taken, queue);
    } else {
      DropLoses(db, taken, poll.1, queue);
    }
  }

  // ---- polls in a row ----

  /** The keys after polls that found nothing usable. */
  ghost function AfterPolls(db: Db, queue: string, leaseFor: int, polls: seq<Poll>, dues: seq<seq<Payload>>): Db
    requires |polls| == |dues|
  {
    if polls == [] then db
    else
      var n := |polls| - 1;
      PollEffect(AfterPolls(db, queue, leaseFor, polls[..n], dues[..n]), queue, leaseFor, polls[n], dues[n]).0
  }

  /** The due payloads were picked by Redis, and no poll found a usable job. */
  ghost predicate InVain(db: Db, queue: string, leaseFor: int, batch: nat, polls: seq<Poll>, dues: seq<seq<Payload>>)
    requires |polls| == |dues|
  {
    polls == [] ||
      var n := |polls| - 1;
      var before := AfterPolls(db, queue, leaseFor, polls[..n], dues[..n]);
      && InVain(db, queue, leaseFor, batch, polls[..n], dues[..n])
      && DueBatch(Delayed(before, queue), Ms(polls[n].0), batch, dues[n])
      && PollEffect(before, queue, leaseFor, polls[n], dues[n]).1.None?
  }

  lemma OnePollMore(db: Db, queue: string, leaseFor: int, batch: nat, polls: seq<Poll>, dues: seq<seq<Payload>>, due: seq<Payload>)
    requires |dues| < |polls| && InVain(db, queue, leaseFor, batch, polls[..|dues|], dues)
    requires DueBatch(Delayed(AfterPolls(db, queue, leaseFor, polls[..|dues|], dues), queue), Ms(polls[|dues|].0), batch, due)
    ensures var n := |dues|;
            var (next, job) := PollEffect(AfterPolls(db, queue, leaseFor, polls[..n], dues), queue, leaseFor, polls[n], due);
      && AfterPolls(db, queue, leaseFor, polls[..n + 1], dues + [due]) == next
      && (job.None? ==> InVain(db, queue, leaseFor, batch, polls[..n + 1], dues + [due]))
  {
    var n := |dues|;
    assert polls[..n + 1][..n] == polls[..n] && (dues + [due])[..n] == dues;
  }

  /** Tokens that nobody uses yet. */
  ghost predicate FreshTokens(db: Db, polls: seq<Poll>) {
    && (forall i :: 0 <= i < |polls| ==> polls[i].1 !in db.leases && polls[i].1 != "" && Trim(polls[i].1) == polls[i].1)
    && (forall i, j :: 0 <= i < j < |polls| ==> polls[i].1 != polls[j].1)
  }

  /** Only tokens of the polls are added. */
  lemma {:induction false} OtherTokens(db: Db, queue: string, leaseFor: int, batch: nat, polls: seq<Poll>, dues: seq<seq<Payload>>, t: string)
    requires |polls| == |dues| && InVain(db, queue, leaseFor, batch, polls, dues)
    requires t !in db.leases && forall i :: 0 <= i < |polls| ==> polls[i].1 != t
    ensures t !in AfterPolls(db, queue, leaseFor, polls, dues).leases
  {
    if polls != [] {
      var n := |polls| - 1;
      OtherTokens(db, queue, leaseFor, batch, polls[..n], dues[..n], t);
      PollTakesHead(AfterPolls(db, queue, leaseFor, polls[..n], dues[..n]), queue, leaseFor, polls[n], dues[n]);
    }
  }

  lemma StillFresh(db: Db, queue: string, leaseFor: int, batch: nat, polls: seq<Poll>, dues: seq<seq<Payload>>)
    requires FreshTokens(db, polls) && |dues| < |polls|
    requires InVain(db, queue, leaseFor, batch, polls[..|dues|], dues)
    ensures polls[|dues|].1 !in AfterPolls(db, queue, leaseFor, polls[..|dues|], dues).leases
  {
    OtherTokens(db, queue, leaseFor, batch, polls[..|dues|], dues, polls[|dues|].1);
  }

  /** Such polls lose unusable payloads and nothing else. */
  lemma {:induction false} VainPollsLose(db: Db, queue: string, leaseFor: int, batch: nat, polls: seq<Poll>, dues: seq<seq<Payload>>)
    returns (lost: seq<Payload>)
    requires |polls| == |dues| && InVain(db, queue, leaseFor, batch, polls, dues) && FreshTokens(db, polls)
    ensures OnlyUnusableLost(db, AfterPolls(db, queue, leaseFor, polls, dues), lost, queue)
  {
    if polls == [] {
      NothingLost(db, db);
      lost := [];
    } else {
      var n := |polls| - 1;
      var before := AfterPolls(db, queue, leaseFor, polls[..n], dues[..n]);
      lost := VainPollsLose(db, queue, leaseFor, batch, polls[..n], dues[..n]);
      StillFresh(db, queue, leaseFor, batch, polls, dues[..n]);
      lost := LastPollLoses(db, before, queue, leaseFor, polls[n], dues[n], lost);
    }
  }

  // ---- whose turn it is ----

  /** How many payloads stand in front of the first one that can be used. */
  function Unusable(line: seq<Payload>, queue: string): (n: nat)
    ensures n <= |line|
  {
    if line == [] || Decoded(line[0], queue).Some? then 0 else 1 + Unusable(line[1..], queue)
  }

  lemma {:induction false} UnusableExactly(line: seq<Payload>, queue: string)
    ensures var n := Unusable(line, queue);
      && (forall i :: 0 <= i < n ==> Decoded(line[i], queue).None?)
      && (n < |line| ==> Decoded(line[n], queue).Some?)
  {
    if line != [] && Decoded(line[0], queue).None? {
      UnusableExactly(line[1..], queue);
      assert forall i :: 0 < i < |line| ==> line[1..][i - 1] == line[i];
    }
  }

  /** After `n` polls that took the first `n` payloads and could not use them, the ready list goes on
      with the rest of the line. */
  ghost predicate Advanced(line: seq<Payload>, list: seq<Payload>, queue: string, n: nat) {
    (n < |line| ==> line[n..] <= list) && (n <= Unusable(line, queue) || Unusable(line, queue) == |line|)
  }

  /** The next poll takes the next payload of the line. */
  lemma Advance(line: seq<Payload>, list: seq<Payload>, due: seq<Payload>, queue: string, n: nat)
    requires if n == 0 then line == list + due else Advanced(line, list, queue, n)
    ensures var now := list + due;
      && (n < |line| ==> now != [] && now[0] == line[n])
      && (now == [] || Decoded(now[0], queue).None? ==> Advanced(line, Rest(now), queue, n + 1))
      && (now != [] && Decoded(now[0], queue).Some? ==> Unusable(line, queue) == if n < |line| then n else |line|)
  {
    var now := list + due;
    UnusableExactly(line, queue);
    if n < |line| {
      assert line[n..][0] == line[n] && line[n..] <= now;
      assert line[n..][1..] == line[n + 1..];
    }
  }

  /** The line that the first of some polls finds. */
  ghost function FirstLine(db: Db, queue: string, dues: seq<seq<Payload>>): seq<Payload>
    requires dues != []
  {
    List(db, queue) + dues[0]
  }

  lemma {:induction false} LineAdvances(db: Db, queue: string, leaseFor: int, batch: nat, polls: seq<Poll>, dues: seq<seq<Payload>>)
    requires |polls| == |dues| > 0 && InVain(db, queue, leaseFor, batch, polls, dues)
    ensures Advanced(FirstLine(db, queue, dues), List(AfterPolls(db, queue, leaseFor, polls, dues), queue), queue, |polls|)
  {
    var n := |polls| - 1;
    var before := AfterPolls(db, queue, leaseFor, polls[..n], dues[..n]);
    if n > 0 {
      LineAdvances(db, queue, leaseFor, batch, polls[..n], dues[..n]);
      assert FirstLine(db, queue, dues[..n]) == FirstLine(db, queue, dues);
    }
    PollTakesHead(before, queue, leaseFor, polls[n], dues[n]);
    Advance(FirstLine(db, queue, dues), List(before, queue), dues[n], queue, n);
  }

  // ---- the whole loop ----

  /** How the polling loop ends: the polls with `dues` were in vain, and then all are used up, or the
      next one, which found `due`, took a job. */
  ghost predicate Ended(before: Db, after: Db, queue: string, leaseFor: int, batch: nat, polls: seq<Poll>,
                        dues: seq<seq<Payload>>, due: seq<Payload>, r: Result<(Job, Lease)>)
  {
    && |dues| <= |polls| && InVain(before, queue, leaseFor, batch, polls[..|dues|], dues)
    && var n, last := |dues|, AfterPolls(before, queue, leaseFor, polls[..|dues|], dues);
    && (r.Err? ==> r.error == Cancelled && n == |polls| && after == last)
    && (r.Ok? ==>
          && n < |polls| && DueBatch(Delayed(last, queue), Ms(polls[n].0), batch, due)
          && PollEffect(last, queue, leaseFor, polls[n], due) == (after, Some(r.value.0))
          && r.value.1 == LeaseOf(r.value.0, polls[n].1, queue, polls[n].0, leaseFor))
  }

  lemma EndLoses(before: Db, after: Db, queue: string, leaseFor: int, batch: nat, polls: seq<Poll>, dues: seq<seq<Payload>>,
                 due: seq<Payload>, r: Result<(Job, Lease)>) returns (lost: seq<Payload>)
    requires Ended(before, after, queue, leaseFor, batch, polls, dues, due, r) && FreshTokens(before, polls)
    ensures OnlyUnusableLost(before, after, lost, queue)
  {
    var n := |dues|;
    lost := VainPollsLose(before, queue, leaseFor, batch, polls[..n], dues);
    if r.Ok? {
      StillFresh(before, queue, leaseFor, batch, polls, dues);
      lost := LastPollLoses(before, AfterPolls(before, queue, leaseFor, polls[..n], dues), queue, leaseFor, polls[n], due, lost);
    }
  }

  lemma LastPollLoses(before: Db, last: Db, queue: string, leaseFor: int, poll: Poll, due: seq<Payload>, lost: seq<Payload>)
    returns (all: seq<Payload>)
    requires OnlyUnusableLost(before, last, lost, queue) && Waiting(last, queue, due) && poll.1 !in last.leases
    ensures OnlyUnusableLost(before, PollEffect(last, queue, leaseFor, poll, due).0, all, queue)
  {
    PollLoses(last, queue, leaseFor, poll, due);
    var more := Dropped(last, queue, leaseFor, poll, due);
    UnusableTrans(before, last, PollEffect(last, queue, leaseFor, poll, due).0, lost, more, queue);
    all := lost + more;
  }

  /** The job is leased under the token of the poll, with the expiry counted from its clock reading. */
  ghost predicate Granted(db: Db, job: Job, lease: Lease, queue: string, leaseFor: int, poll: Poll) {
    && Valid(job) && poll.1 in db.leases && Decoded(db.leases[poll.1].payload, queue) == Some(job)
    && lease.jobId == Trim(job.id) && lease.token == poll.1 && lease.queue == queue && lease.attempt == job.attempt
    && Lasts(db.leases[poll.1].expireAtMs, lease.expireAt, poll.0, leaseFor)
  }

  lemma PollGrants(db: Db, queue: string, leaseFor: int, poll: Poll, due: seq<Payload>)
    ensures var (after, job) := PollEffect(db, queue, leaseFor, poll, due);
      job.Some? ==> Granted(after, job.value, LeaseOf(job.value, poll.1, queue, poll.0, leaseFor), queue, leaseFor, poll)
  {
    DeadlineLasts(poll.0, leaseFor);
  }

  /** The first usable payload of the line is the one that is leased, by the poll whose turn it is. */
  ghost predicate LeasedInTurn(after: Db, r: Result<(Job, Lease)>, line: seq<Payload>, queue: string, polls: seq<Poll>) {
    var k := Unusable(line, queue);
    k < |line| && k < |polls| ==>
      r.Ok? && r.value.1.token == polls[k].1 && polls[k].1 in after.leases && after.leases[polls[k].1].payload == line[k]
  }

  /** A job that is taken after `n` polls in vain is the first usable payload of the line. */
  lemma TakenInTurn(line: seq<Payload>, last: Db, queue: string, leaseFor: int, poll: Poll, due: seq<Payload>, n: nat)
    requires Waiting(last, queue, due)
    requires if n == 0 then line == List(last, queue) + due else Advanced(line, List(last, queue), queue, n)
    ensures var (after, job) := PollEffect(last, queue, leaseFor, poll, due);
      job.Some? ==>
        if n < |line| then Unusable(line, queue) == n && poll.1 in after.leases && after.leases[poll.1].payload == line[n]
        else Unusable(line, queue) == |line|
  {
    PollTakesHead(last, queue, leaseFor, poll, due);
    Advance(line, List(last, queue), due, queue, n);
  }

  lemma EndInTurn(before: Db, after: Db, queue: string, leaseFor: int, batch: nat, polls: seq<Poll>, dues: seq<seq<Payload>>,
                  due: seq<Payload>, r: Result<(Job, Lease)>)
    requires Ended(before, after, queue, leaseFor, batch, polls, dues, due, r) && polls != []
    ensures var first := if dues == [] then due else dues[0];
      && DueBatch(Delayed(before, queue), Ms(polls[0].0), batch, first)
      && LeasedInTurn(after, r, List(before, queue) + first, queue, polls)
  {
    var n := |dues|;
    var first := if dues == [] then due else dues[0];
    if n > 0 {
      LineAdvances(before, queue, leaseFor, batch, polls[..n], dues);
      FirstDue(before, queue, leaseFor, batch, polls[..n], dues);
    }
    if r.Ok? {
      TakenInTurn(List(before, queue) + first, AfterPolls(before, queue, leaseFor, polls[..n], dues), queue, leaseFor, polls[n], due, n);
    }
  }

  lemma {:induction false} FirstDue(db: Db, queue: string, leaseFor: int, batch: nat, polls: seq<Poll>, dues: seq<seq<Payload>>)
    requires |polls| == |dues| > 0 && InVain(db, queue, leaseFor, batch, polls, dues)
    ensures DueBatch(Delayed(db, queue), Ms(polls[0].0), batch, dues[0])
  {
    if |polls| > 1 {
      FirstDue(db, queue, leaseFor, batch, polls[..|polls| - 1], dues[..|polls| - 1]);
    }
  }
}
