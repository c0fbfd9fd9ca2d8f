/** The Redis data of the jobs backend and the atomic commands that change it: the three Lua
    scripts, the plain RPUSH / ZADD of Enqueue, and PEXPIRE. Key prefixes are injective in the
    queue name and token, so the keys are the queue names and tokens themselves. */
module RedisQueue {
  import opened Text
  import opened Jobs
  import opened Bags

  /** A stored string: the JSON envelope of a job, or text that is not one. Encoding is injective. */
  datatype Payload = Encoded(job: Job) | Garbage(text: string)

  datatype LeaseKey = LeaseKey(payload: Payload, expireAtMs: nat)

  type Zset = map<Payload, nat>

  datatype Db = Db(ready: map<string, seq<Payload>>, delayed: map<string, Zset>, leases: map<string, LeaseKey>)

  const MILLISECOND: nat := 1_000_000

  /** `UnixMilli` and `Milliseconds`: whole milliseconds, rounded down. */
  function Ms(t: Time): (ms: nat)
    ensures ms * 1_000_000 <= t < (ms + 1) * 1_000_000
  {
    t / MILLISECOND
  }

  function List(db: Db, queue: string): seq<Payload> {
    if queue in db.ready then db.ready[queue] else []
  }

  function Delayed(db: Db, queue: string): Zset {
    if queue in db.delayed then db.delayed[queue] else map[]
  }

  function SetList(db: Db, queue: string, s: seq<Payload>): Db {
    db.(ready := db.ready[queue := s])
  }

  function SetZset(db: Db, queue: string, z: Zset): Db {
    db.(delayed := db.delayed[queue := z])
  }

  /** SET of a lease key. */
  function Hold(db: Db, token: string, lease: LeaseKey): Db {
    db.(leases := db.leases[token := lease])
  }

  function Rpush(db: Db, queue: string, p: Payload): Db {
    SetList(db, queue, List(db, queue) + [p])
  }

  /** ZADD of a member that is already present only changes its score. */
  function Zadd(db: Db, queue: string, p: Payload, score: nat): Db {
    SetZset(db, queue, Delayed(db, queue)[p := score])
  }

  /** Into the ready list, or into the zset until its time. */
  function Put(db: Db, queue: string, p: Payload, score: nat, ready: bool): Db {
    if ready then Rpush(db, queue, p) else Zadd(db, queue, p, score)
  }

  function Zrem(db: Db, queue: string, p: Payload): Db {
    SetZset(db, queue, Delayed(db, queue) - {p})
  }

  /** `ZRANGEBYSCORE delayed -inf nowMs LIMIT 0 batch`: the due members with the lowest scores.
      Ties are ordered by Redis in a way that no property depends on. */
  ghost predicate DueBatch(z: Zset, nowMs: nat, batch: nat, due: seq<Payload>) {
    && (forall i :: 0 <= i < |due| ==> due[i] in z && z[due[i]] <= nowMs)
    && (forall i, j :: 0 <= i < j < |due| ==> due[i] != due[j] && z[due[i]] <= z[due[j]])
    && |due| <= batch
    && (forall p :: p in z && z[p] <= nowMs && p !in due ==>
          |due| == batch && forall i :: 0 <= i < |due| ==> z[due[i]] <= z[p])
  }

  /** One round of the transfer loop: RPUSH, then ZREM. */
  function MoveOne(db: Db, queue: string, p: Payload): Db {
    Zrem(Rpush(db, queue, p), queue, p)
  }

  /** The transfer loop of the reserve script. */
  function Transfer(db: Db, queue: string, due: seq<Payload>): Db
    decreases |due|
  {
    if due == [] then db
    else Transfer(MoveOne(db, queue, due[0]), queue, due[1..])
  }

  /** The reserve script: transfer what is due, pop the head, store it under the lease key. */
  function ReserveEffect(db: Db, queue: string, due: seq<Payload>, token: string, expireAtMs: nat): (Db, Option<Payload>) {
    var moved := Transfer(db, queue, due);
    var list := List(moved, queue);
    if list == [] then (moved, None)
    else (Hold(SetList(moved, queue, list[1..]), token, LeaseKey(list[0], expireAtMs)), Some(list[0]))
  }

  /** The get-and-delete script. */
  function DeleteLease(db: Db, token: string): Db {
    db.(leases := db.leases - {token})
  }

  /** The transition script and its return code. */
  function TransitionEffect(db: Db, token: string, expected: Payload, next: Payload, queue: string, runAtMs: nat, nowMs: nat): (Db, int) {
    if token !in db.leases then (db, 0)
    else if db.leases[token].payload != expected then (db, -1)
    else
      var rest := DeleteLease(db, token);
      (Put(rest, queue, next, runAtMs, runAtMs <= nowMs), 1)
  }

  /** The command Enqueue sends; `at` is the client's clock reading. */
  function EnqueueEffect(db: Db, job: Job, at: Time): Db {
    Put(db, Trim(job.queue), Encoded(job), Ms(job.runAt), job.runAt <= at)
  }

  // ---- counting jobs ----

  function IdOf(p: Payload): string {
    match p case Encoded(j) => j.id case Garbage(_) => ""
  }

  function Ids(s: seq<Payload>): seq<string> {
    seq(|s|, i requires 0 <= i < |s| => IdOf(s[i]))
  }

  ghost function ZsetBag(z: Zset): multiset<string> {
    Sum(Singles(z))
  }

  ghost function ReadyBags(db: Db): map<string, multiset<string>> {
    map q | q in db.ready :: multiset(Ids(db.ready[q]))
  }

  ghost function DelayedBags(db: Db): map<string, multiset<string>> {
    map q | q in db.delayed :: ZsetBag(db.delayed[q])
  }

  ghost function LeaseBags(db: Db): map<string, multiset<string>> {
    map t | t in db.leases :: multiset{IdOf(db.leases[t].payload)}
  }

  /** The ids of all jobs held anywhere, each as often as it is held. */
  ghost function JobsIn(db: Db): multiset<string> {
    Sum(ReadyBags(db)) + Sum(DelayedBags(db)) + Sum(LeaseBags(db))
  }

  // The three parts of the count, one changed at a time.

  lemma ReadyBagsPut(db: Db, queue: string, s: seq<Payload>)
    ensures ReadyBags(SetList(db, queue, s)) == ReadyBags(db)[queue := multiset(Ids(s))]
  {
    var after, want := ReadyBags(SetList(db, queue, s)), ReadyBags(db)[queue := multiset(Ids(s))];
    assert after.Keys == want.Keys;
    forall q | q in after ensures after[q] == want[q] {
    }
  }

  lemma ReadyBagAt(db: Db, queue: string)
    ensures At(ReadyBags(db), queue) == multiset(Ids(List(db, queue)))
  {
  }

  lemma DelayedBagsPut(db: Db, queue: string, z: Zset)
    ensures DelayedBags(SetZset(db, queue, z)) == DelayedBags(db)[queue := ZsetBag(z)]
  {
  }

  lemma LeaseBagsPut(db: Db, token: string, lease: LeaseKey)
    ensures LeaseBags(Hold(db, token, lease)) == LeaseBags(db)[token := multiset{IdOf(lease.payload)}]
  {
  }

  lemma LeaseBagsDrop(db: Db, token: string)
    ensures LeaseBags(DeleteLease(db, token)) == LeaseBags(db) - {token}
  {
  }

  lemma ReadyChange(db: Db, queue: string, s: seq<Payload>)
    ensures JobsIn(SetList(db, queue, s)) + multiset(Ids(List(db, queue))) == JobsIn(db) + multiset(Ids(s))
  {
    var m, added := ReadyBags(db), multiset(Ids(s));
    SumUpdate(m, queue, added);
    ReadyBagsPut(db, queue, s);
    ReadyBagAt(db, queue);
    Exchange(Sum(m), Sum(m[queue := added]), Sum(DelayedBags(db)), Sum(LeaseBags(db)), At(m, queue), added);
  }

  lemma DelayedChange(db: Db, queue: string, z: Zset)
    ensures JobsIn(SetZset(db, queue, z)) + ZsetBag(Delayed(db, queue)) == JobsIn(db) + ZsetBag(z)
  {
    var m, added := DelayedBags(db), ZsetBag(z);
    SumUpdate(m, queue, added);
    DelayedBagsPut(db, queue, z);
    EmptyZset();
    Exchange(Sum(m), Sum(m[queue := added]), Sum(ReadyBags(db)), Sum(LeaseBags(db)), At(m, queue), added);
  }

  lemma EmptyZset()
    ensures ZsetBag(map[]) == multiset{}
  {
    var z: Zset := map[];
    assert Singles(z) == map[];
  }

  lemma LeaseAdded(db: Db, token: string, lease: LeaseKey)
    requires token !in db.leases
    ensures JobsIn(Hold(db, token, lease)) == JobsIn(db) + multiset{IdOf(lease.payload)}
  {
    var m, added := LeaseBags(db), multiset{IdOf(lease.payload)};
    SumUpdate(m, token, added);
    LeaseBagsPut(db, token, lease);
    Exchange(Sum(m), Sum(m[token := added]), Sum(ReadyBags(db)), Sum(DelayedBags(db)), multiset{}, added);
  }

  lemma LeaseDeleted(db: Db, token: string)
    requires token in db.leases
    ensures JobsIn(DeleteLease(db, token)) + multiset{IdOf(db.leases[token].payload)} == JobsIn(db)
  {
    var m := LeaseBags(db);
    SumDrop(m, token);
    LeaseBagsDrop(db, token);
    Exchange(Sum(m), Sum(m - {token}), Sum(ReadyBags(db)), Sum(DelayedBags(db)), m[token], multiset{});
  }

  ghost function Singles(z: Zset): map<Payload, multiset<string>> {
    map p | p in z :: multiset{IdOf(p)}
  }

  lemma SinglesPut(z: Zset, p: Payload, score: nat)
    ensures Singles(z[p := score]) == Singles(z)[p := multiset{IdOf(p)}]
  {
  }

  lemma SinglesDrop(z: Zset, p: Payload)
    ensures Singles(z - {p}) == Singles(z) - {p}
  {
  }

  lemma ZsetPut(z: Zset, p: Payload, score: nat)
    ensures ZsetBag(z[p := score]) + (if p in z then multiset{IdOf(p)} else multiset{}) == ZsetBag(z) + multiset{IdOf(p)}
  {
    SumUpdate(Singles(z), p, multiset{IdOf(p)});
    SinglesPut(z, p, score);
  }

  lemma ZsetDrop(z: Zset, p: Payload)
    requires p in z
    ensures ZsetBag(z - {p}) + multiset{IdOf(p)} == ZsetBag(z)
  {
    SumDrop(Singles(z), p);
    SinglesDrop(z, p);
  }

  lemma IdsOfCons(p: Payload, s: seq<Payload>)
    ensures multiset(Ids([p] + s)) == multiset{IdOf(p)} + multiset(Ids(s))
  {
    assert Ids([p] + s) == [IdOf(p)] + Ids(s);
  }

  lemma IdsOfSnoc(s: seq<Payload>, p: Payload)
    ensures multiset(Ids(s + [p])) == multiset(Ids(s)) + multiset{IdOf(p)}
  {
    assert Ids(s + [p]) == Ids(s) + [IdOf(p)];
  }

  lemma RpushCounts(db: Db, queue: string, p: Payload)
    ensures JobsIn(Rpush(db, queue, p)) == JobsIn(db) + multiset{IdOf(p)}
  {
    var list := List(db, queue);
    ReadyChange(db, queue, list + [p]);
    IdsOfSnoc(list, p);
    Cancel(JobsIn(db), JobsIn(Rpush(db, queue, p)), multiset(Ids(list)), multiset{IdOf(p)});
  }

  /** ZADD adds exactly one job unless the very same payload already waits in that queue; then the
      two become one. */
  lemma ZaddCounts(db: Db, queue: string, p: Payload, score: nat)
    ensures JobsIn(Zadd(db, queue, p, score)) == JobsIn(db) + (if p in Delayed(db, queue) then multiset{} else multiset{IdOf(p)})
  {
    var z := Delayed(db, queue);
    DelayedChange(db, queue, z[p := score]);
    ZsetPut(z, p, score);
    ZaddArithmetic(JobsIn(db), JobsIn(Zadd(db, queue, p, score)), ZsetBag(z), ZsetBag(z[p := score]), multiset{IdOf(p)}, p in z);
  }

  lemma ZaddArithmetic(x: multiset<string>, x': multiset<string>, z: multiset<string>, z': multiset<string>, one: multiset<string>, present: bool)
    requires x' + z == x + z' && z' + (if present then one else multiset{}) == z + one
    ensures x' == x + (if present then multiset{} else one)
  {
    if present {
      Cancel(z, z', one, multiset{});
      Cancel(x, x', z, multiset{});
    } else {
      Cancel(x, x', z, one);
    }
  }

  lemma TransferOne(db: Db, queue: string, p: Payload)
    requires p in Delayed(db, queue)
    ensures JobsIn(MoveOne(db, queue, p)) == JobsIn(db)
  {
    var pushed := Rpush(db, queue, p);
    var z := Delayed(pushed, queue);
    RpushCounts(db, queue, p);
    DelayedChange(pushed, queue, z - {p});
    ZsetDrop(z, p);
    Cancel(JobsIn(db), JobsIn(Zrem(pushed, queue, p)), ZsetBag(z), multiset{});
  }

  /** Distinct members of the queue's zset. */
  predicate Waiting(db: Db, queue: string, due: seq<Payload>) {
    && (forall i :: 0 <= i < |due| ==> due[i] in Delayed(db, queue))
    && (forall i, j :: 0 <= i < j < |due| ==> due[i] != due[j])
  }

  lemma MoveOneShape(db: Db, queue: string, p: Payload)
    ensures var r := MoveOne(db, queue, p);
            && List(r, queue) == List(db, queue) + [p]
            && Delayed(r, queue) == Delayed(db, queue) - {p}
            && r.leases == db.leases
            && (forall q :: q != queue ==> List(r, q) == List(db, q) && Delayed(r, q) == Delayed(db, q))
  {
  }

  lemma WaitingTail(db: Db, queue: string, due: seq<Payload>)
    requires due != [] && Waiting(db, queue, due)
    ensures Waiting(MoveOne(db, queue, due[0]), queue, due[1..])
  {
    MoveOneShape(db, queue, due[0]);
  }

  lemma {:induction false} TransferLists(db: Db, queue: string, due: seq<Payload>)
    requires Waiting(db, queue, due)
    ensures var r := Transfer(db, queue, due);
            && List(r, queue) == List(db, queue) + due
            && r.leases == db.leases
            && (forall q :: q != queue ==> List(r, q) == List(db, q) && Delayed(r, q) == Delayed(db, q))
    decreases |due|
  {
    if due != [] {
      MoveOneShape(db, queue, due[0]);
      WaitingTail(db, queue, due);
      TransferLists(MoveOne(db, queue, due[0]), queue, due[1..]);
      assert List(db, queue) + [due[0]] + due[1..] == List(db, queue) + due;
    }
  }

  lemma {:induction false} TransferZset(db: Db, queue: string, due: seq<Payload>, p: Payload)
    requires Waiting(db, queue, due)
    ensures var r := Transfer(db, queue, due);
            && (p in Delayed(r, queue) <==> p in Delayed(db, queue) && p !in due)
            && (p in Delayed(r, queue) ==> Delayed(r, queue)[p] == Delayed(db, queue)[p])
    decreases |due|
  {
    if due != [] {
      MoveOneShape(db, queue, due[0]);
      WaitingTail(db, queue, due);
      TransferZset(MoveOne(db, queue, due[0]), queue, due[1..], p);
      assert p in due <==> p == due[0] || p in due[1..];
    }
  }

  /** The transfer loop appends the due jobs in order and removes them from the zset. */
  lemma TransferShape(db: Db, queue: string, due: seq<Payload>)
    requires Waiting(db, queue, due)
    ensures var r := Transfer(db, queue, due);
            && List(r, queue) == List(db, queue) + due
            && (forall p :: p in Delayed(r, queue) <==> p in Delayed(db, queue) && p !in due)
            && (forall p :: p in Delayed(r, queue) ==> Delayed(r, queue)[p] == Delayed(db, queue)[p])
            && r.leases == db.leases
            && (forall q :: q != queue ==> List(r, q) == List(db, q) && Delayed(r, q) == Delayed(db, q))
  {
    TransferLists(db, queue, due);
    var r := Transfer(db, queue, due);
    forall p
      ensures p in Delayed(r, queue) <==> p in Delayed(db, queue) && p !in due
      ensures p in Delayed(r, queue) ==> Delayed(r, queue)[p] == Delayed(db, queue)[p]
    {
      TransferZset(db, queue, due, p);
    }
  }

  /** The transfer loop neither creates nor loses jobs. */
  lemma {:induction false} TransferCounts(db: Db, queue: string, due: seq<Payload>)
    requires Waiting(db, queue, due)
    ensures JobsIn(Transfer(db, queue, due)) == JobsIn(db)
    decreases |due|
  {
    if due != [] {
      var next := MoveOne(db, queue, due[0]);
      TransferOne(db, queue, due[0]);
      WaitingTail(db, queue, due);
      TransferCounts(next, queue, due[1..]);
    }
  }

  /** What the script does with the waiting line, the ready payloads followed by the due ones: it takes
      the first, leases it, and leaves the rest in order. */
  lemma ReserveLine(db: Db, queue: string, due: seq<Payload>, token: string, expireAtMs: nat)
    requires Waiting(db, queue, due)
    ensures var (next, r) := ReserveEffect(db, queue, due, token, expireAtMs);
            var line := List(db, queue) + due;
            && (line == [] ==> r.None? && List(next, queue) == [] && next.leases == db.leases)
            && (line != [] ==>
                  && r == Some(line[0]) && List(next, queue) == line[1..]
                  && next.leases == db.leases[token := LeaseKey(line[0], expireAtMs)])
  {
    TransferLists(db, queue, due);
  }

  /** The due payloads leave the zset, and the other queues are untouched. */
  lemma ReserveLeavesOthers(db: Db, queue: string, due: seq<Payload>, token: string, expireAtMs: nat)
    requires Waiting(db, queue, due)
    ensures var next := ReserveEffect(db, queue, due, token, expireAtMs).0;
            && (forall p :: p in Delayed(next, queue) <==> p in Delayed(db, queue) && p !in due)
            && (forall q :: q != queue ==> List(next, q) == List(db, q) && Delayed(next, q) == Delayed(db, q))
  {
    var moved := Transfer(db, queue, due);
    var list := List(moved, queue);
    TransferShape(db, queue, due);
    if list != [] {
      HoldAfterPop(moved, queue, list[1..], token, LeaseKey(list[0], expireAtMs));
    }
  }

  lemma HoldAfterPop(db: Db, queue: string, rest: seq<Payload>, token: string, lease: LeaseKey)
    ensures var next := Hold(SetList(db, queue, rest), token, lease);
            && next.delayed == db.delayed && forall q :: q != queue ==> List(next, q) == List(db, q)
  {
  }

  /** The script finds a job whenever one is ready or due, and leases the oldest ready one. */
  lemma ReserveShape(db: Db, queue: string, due: seq<Payload>, token: string, expireAtMs: nat, nowMs: nat, batch: nat)
    requires batch >= 1 && DueBatch(Delayed(db, queue), nowMs, batch, due)
    ensures var (next, r) := ReserveEffect(db, queue, due, token, expireAtMs);
            && (r.None? <==> List(db, queue) == [] && forall p :: p in Delayed(db, queue) ==> Delayed(db, queue)[p] > nowMs)
            && (r.Some? ==>
                  && r.value == (List(db, queue) + due)[0]
                  && next.leases == db.leases[token := LeaseKey(r.value, expireAtMs)])
            && (r.None? ==> next.leases == db.leases)
  {
    TransferShape(db, queue, due);
    if due != [] {
      assert due[0] in Delayed(db, queue);
    }
  }

  /** Reserving with a fresh token keeps the multiset of jobs. */
  lemma ReserveCounts(db: Db, queue: string, due: seq<Payload>, token: string, expireAtMs: nat)
    requires token !in db.leases && Waiting(db, queue, due)
    ensures JobsIn(ReserveEffect(db, queue, due, token, expireAtMs).0) == JobsIn(db)
  {
    TransferShape(db, queue, due);
    TransferCounts(db, queue, due);
    var moved := Transfer(db, queue, due);
    var list := List(moved, queue);
    if list != [] {
      PopCounts(moved, queue, token, expireAtMs);
    }
  }

  lemma PopReady(db: Db, queue: string)
    requires List(db, queue) != []
    ensures var list := List(db, queue);
            JobsIn(SetList(db, queue, list[1..])) + multiset{IdOf(list[0])} == JobsIn(db)
  {
    var list := List(db, queue);
    var head, tail := list[0], list[1..];
    ReadyChange(db, queue, tail);
    assert list == [head] + tail;
    IdsOfCons(head, tail);
    PopArithmetic(JobsIn(db), JobsIn(SetList(db, queue, tail)), multiset(Ids(tail)), multiset{IdOf(head)});
  }

  lemma PopCounts(db: Db, queue: string, token: string, expireAtMs: nat)
    requires token !in db.leases && List(db, queue) != []
    ensures var list := List(db, queue);
            JobsIn(Hold(SetList(db, queue, list[1..]), token, LeaseKey(list[0], expireAtMs))) == JobsIn(db)
  {
    var list := List(db, queue);
    PopReady(db, queue);
    LeaseAdded(SetList(db, queue, list[1..]), token, LeaseKey(list[0], expireAtMs));
  }

  lemma PopArithmetic(x: multiset<string>, x': multiset<string>, rest: multiset<string>, one: multiset<string>)
    requires x' + (one + rest) == x + rest
    ensures x' + one == x
  {
    assert (x' + one) + rest == x' + (one + rest);
    Cancel(x, x' + one, rest, multiset{});
  }

  /** What the return code of the transition says. */
  lemma TransitionShape(db: Db, token: string, expected: Payload, next: Payload, queue: string, runAtMs: nat, nowMs: nat)
    ensures var (after, code) := TransitionEffect(db, token, expected, next, queue, runAtMs, nowMs);
            && (code == 1 <==> token in db.leases && db.leases[token].payload == expected)
            && (code == -1 <==> token in db.leases && db.leases[token].payload != expected)
            && (code == 1 ==> after.leases == db.leases - {token})
            && (code == 1 && runAtMs <= nowMs ==>
                  after.delayed == db.delayed && after.ready == db.ready[queue := List(db, queue) + [next]])
            && (code == 1 && runAtMs > nowMs ==>
                  after.ready == db.ready && after.delayed == db.delayed[queue := Delayed(db, queue)[next := runAtMs]])
            && (code != 1 ==> after == db && code in {0, -1})
  {
  }

  /** What is lost when a payload is put into a zset where the very same payload already waits. */
  function Merged(db: Db, queue: string, p: Payload, ready: bool): multiset<string> {
    if !ready && p in Delayed(db, queue) then multiset{IdOf(p)} else multiset{}
  }

  /** Putting a payload anywhere adds one job, of which a merge takes one away. */
  lemma PutCounts(db: Db, queue: string, p: Payload, score: nat, ready: bool)
    ensures JobsIn(Put(db, queue, p, score, ready)) + Merged(db, queue, p, ready)
         == JobsIn(db) + multiset{IdOf(p)}
  {
    if ready {
      RpushCounts(db, queue, p);
    } else {
      ZaddCounts(db, queue, p, score);
    }
  }

  /** A successful transition to a payload of the same id keeps the multiset of jobs, except for a
      merge in the target queue. */
  lemma TransitionCounts(db: Db, token: string, expected: Payload, next: Payload, queue: string, runAtMs: nat, nowMs: nat)
    requires IdOf(next) == IdOf(expected) && token in db.leases && db.leases[token].payload == expected
    ensures JobsIn(TransitionEffect(db, token, expected, next, queue, runAtMs, nowMs).0)
              + Merged(db, queue, next, runAtMs <= nowMs) == JobsIn(db)
  {
    LeaseDeleted(db, token);
    PutCounts(DeleteLease(db, token), queue, next, runAtMs, runAtMs <= nowMs);
    TransitionParts(db, token, expected, next, queue, runAtMs, nowMs);
  }

  lemma TransitionParts(db: Db, token: string, expected: Payload, next: Payload, queue: string, runAtMs: nat, nowMs: nat)
    requires token in db.leases && db.leases[token].payload == expected
    ensures var rest, ready := DeleteLease(db, token), runAtMs <= nowMs;
      && TransitionEffect(db, token, expected, next, queue, runAtMs, nowMs).0 == Put(rest, queue, next, runAtMs, ready)
      && Merged(rest, queue, next, ready) == Merged(db, queue, next, ready)
  {
  }

  /** Enqueue adds its job, except for a merge. */
  lemma EnqueueCounts(db: Db, job: Job, at: Time)
    ensures JobsIn(EnqueueEffect(db, job, at)) + Merged(db, Trim(job.queue), Encoded(job), job.runAt <= at)
         == JobsIn(db) + multiset{job.id}
  {
    PutCounts(db, Trim(job.queue), Encoded(job), Ms(job.runAt), job.runAt <= at);
  }

  /** Changing the expiry of a lease moves no job. */
  lemma RenewCounts(db: Db, token: string, expireAtMs: nat)
    requires token in db.leases
    ensures JobsIn(Hold(db, token, db.leases[token].(expireAtMs := expireAtMs))) == JobsIn(db)
  {
    LeaseBagsPut(db, token, db.leases[token].(expireAtMs := expireAtMs));
    SameBag(LeaseBags(db), token);
  }

  lemma SameBag(m: map<string, multiset<string>>, k: string)
    requires k in m
    ensures m[k := m[k]] == m
  {
  }

  /** A payload waiting in a zset is counted. */
  lemma DelayedIsCounted(db: Db, queue: string, p: Payload)
    requires p in Delayed(db, queue)
    ensures JobsIn(db)[IdOf(p)] >= 1
    ensures forall t :: t in db.leases && IdOf(db.leases[t].payload) == IdOf(p) ==> JobsIn(db)[IdOf(p)] >= 2
  {
    SumAtLeast(Singles(db.delayed[queue]), p);
    SumAtLeast(DelayedBags(db), queue);
    assert ZsetBag(db.delayed[queue])[IdOf(p)] >= 1;
    assert Sum(DelayedBags(db))[IdOf(p)] >= 1;
    forall t | t in db.leases && IdOf(db.leases[t].payload) == IdOf(p) ensures JobsIn(db)[IdOf(p)] >= 2 {
      SumAtLeast(LeaseBags(db), t);
      assert Sum(LeaseBags(db))[IdOf(p)] >= 1;
    }
  }
}
