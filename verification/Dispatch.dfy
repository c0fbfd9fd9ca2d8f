/** The scheduler's dispatch section on top of a TTL lock: any number of scheduler instances, each
    with its renewal goroutine, acting in any order on one shared clock. `timeout` is the dispatch
    timeout, `lag` bounds the time between the execution of Acquire in the store and the start of the
    dispatch context in the client. */
module Dispatch {
  import opened TtlLock

  datatype Config = Config(form: Form, ttl: nat, timeout: nat, lag: nat)

  datatype Phase = Acquired | Dispatching | Returned | Stopped | Done
  datatype Renewer = NotStarted | Running | Exited

  /** One call of `dispatchTask`: what it has done so far, when it acquired and when its dispatch
      context started. */
  datatype Call = Call(phase: Phase, key: string, token: string, at: nat, start: nat, renewer: Renewer)

  datatype Cluster = Cluster(store: Store, now: nat, calls: map<nat, Call>, drawn: set<string>, releases: multiset<string>)

  function Init(): Cluster {
    Cluster(map[], 0, map[], {}, multiset{})
  }

  /** How a command to the lock store fared. */
  datatype Network = Delivered | RequestLost | ReplyLost

  datatype Step =
    | Elapse(elapsed: nat)
    | TryAcquire(id: nat, key: string, token: string)
    | Begin(id: nat)
    | RenewTick(id: nat, net: Network)
    | EnqueueReturns(id: nat)
    | RenewerStops(id: nat)
    | Join(id: nat)
    | TryRelease(id: nat, net: Network)

  /** Between the acquisition and the return of Enqueue. */
  predicate Inside(c: Call) {
    c.phase.Acquired? || c.phase.Dispatching?
  }

  /** Enqueue honours its context, and the client starts that context within `lag`. */
  predicate InTime(cfg: Config, c: Call, now: nat) {
    && (c.phase.Acquired? ==> now <= c.at + cfg.lag)
    && (c.phase.Dispatching? ==> now <= c.start + cfg.timeout)
  }

  predicate Enabled(cfg: Config, w: Cluster, a: Step) {
    match a
    case Elapse(d) => forall i :: i in w.calls ==> InTime(cfg, w.calls[i], w.now + d)
    case TryAcquire(i, k, t) => i !in w.calls && t !in w.drawn
    case Begin(i) => i in w.calls && w.calls[i].phase.Acquired?
    case RenewTick(i, _) => i in w.calls && w.calls[i].renewer.Running?
    case EnqueueReturns(i) => i in w.calls && w.calls[i].phase.Dispatching?
    case RenewerStops(i) => i in w.calls && w.calls[i].renewer.Running?
    case Join(i) => i in w.calls && w.calls[i].phase.Returned? && w.calls[i].renewer.Exited?
    case TryRelease(i, _) => i in w.calls && w.calls[i].phase.Stopped?
  }

  function LockEffect(cfg: Config, w: Cluster, e: Event): (Store, bool) {
    var (s, ok) := Perform(cfg.form, State(w.store, w.now), e);
    (s.store, ok)
  }

  function Next(cfg: Config, w: Cluster, a: Step): Cluster
    requires Enabled(cfg, w, a)
  {
    match a
    case Elapse(d) => w.(now := w.now + d)
    case TryAcquire(i, k, t) =>
      var (store, ok) := LockEffect(cfg, w, Event.Acquire(k, t, cfg.ttl));
      w.(store := store, drawn := w.drawn + {t},
         calls := if ok then w.calls[i := Call(Acquired, k, t, w.now, w.now, NotStarted)] else w.calls)
    case Begin(i) => w.(calls := w.calls[i := w.calls[i].(phase := Dispatching, start := w.now, renewer := Running)])
    case RenewTick(i, net) =>
      var c := w.calls[i];
      var (store, ok) := LockEffect(cfg, w, Event.Renew(c.key, c.token, cfg.ttl));
      w.(store := if net.RequestLost? then w.store else store,
         calls := if net.Delivered? && ok then w.calls else w.calls[i := c.(renewer := Exited)])
    case EnqueueReturns(i) => w.(calls := w.calls[i := w.calls[i].(phase := Returned)])
    case RenewerStops(i) => w.(calls := w.calls[i := w.calls[i].(renewer := Exited)])
    case Join(i) => w.(calls := w.calls[i := w.calls[i].(phase := Stopped)])
    case TryRelease(i, net) =>
      var c := w.calls[i];
      w.(store := if net.RequestLost? then w.store else LockEffect(cfg, w, Event.Release(c.key, c.token)).0,
         calls := w.calls[i := c.(phase := Done)], releases := w.releases + multiset{c.token})
  }

  ghost predicate IsRun(cfg: Config, ws: seq<Cluster>, steps: seq<Step>) {
    && |ws| == |steps| + 1 && ws[0] == Init()
    && forall i :: 0 <= i < |steps| ==> Enabled(cfg, ws[i], steps[i]) && ws[i + 1] == Next(cfg, ws[i], steps[i])
  }

  // ---- program order of one call ----

  /** Tokens are private to a call; the renewal goroutine is gone before Release; Release is attempted
      once. */
  predicate CallOk(w: Cluster, c: Call) {
    && c.token in w.drawn
    && (c.phase.Acquired? <==> c.renewer.NotStarted?)
    && (c.phase.Stopped? || c.phase.Done? ==> c.renewer.Exited?)
    && w.releases[c.token] == (if c.phase.Done? then 1 else 0)
  }

  predicate CallsOk(w: Cluster) {
    && (forall i :: i in w.calls ==> CallOk(w, w.calls[i]))
    && (forall i, j :: i in w.calls && j in w.calls && i != j ==> w.calls[i].token != w.calls[j].token)
    && (forall t :: t in w.releases ==> t in w.drawn)
  }

  /** Changing one call, and at most the release count of its token, keeps the rest in order. */
  lemma CallChanged(w: Cluster, next: Cluster, i: nat, c: Call)
    requires CallsOk(w) && i in w.calls && c.token == w.calls[i].token
    requires next.calls == w.calls[i := c] && next.drawn == w.drawn && CallOk(next, c)
    requires forall t :: t != c.token ==> next.releases[t] == w.releases[t]
    ensures CallsOk(next)
  {
    forall j | j in next.calls ensures CallOk(next, next.calls[j]) {
      if j != i {
        assert CallOk(w, w.calls[j]);
      }
    }
  }

  lemma CallsStep(cfg: Config, w: Cluster, a: Step)
    requires CallsOk(w) && Enabled(cfg, w, a)
    ensures CallsOk(Next(cfg, w, a))
  {
    var next := Next(cfg, w, a);
    if a.TryAcquire? {
      CallsAdded(cfg, w, a);
    } else if !a.Elapse? && next.calls != w.calls {
      assert CallOk(w, w.calls[a.id]);
      CallChanged(w, next, a.id, next.calls[a.id]);
    } else {
      forall j | j in next.calls ensures CallOk(next, next.calls[j]) {
        assert CallOk(w, w.calls[j]);
      }
    }
  }

  lemma CallsAdded(cfg: Config, w: Cluster, a: Step)
    requires CallsOk(w) && Enabled(cfg, w, a) && a.TryAcquire?
    ensures CallsOk(Next(cfg, w, a))
  {
    var next := Next(cfg, w, a);
    forall j | j in next.calls ensures CallOk(next, next.calls[j]) {
      if j in w.calls {
        assert CallOk(w, w.calls[j]);
      }
    }
    forall j, k | j in next.calls && k in next.calls && j != k ensures next.calls[j].token != next.calls[k].token {
      if j in w.calls {
        assert CallOk(w, w.calls[j]);
      }
      if k in w.calls {
        assert CallOk(w, w.calls[k]);
      }
    }
  }

  lemma {:induction false} CallsAlways(cfg: Config, ws: seq<Cluster>, steps: seq<Step>, i: nat)
    requires IsRun(cfg, ws, steps) && i < |ws|
    ensures CallsOk(ws[i])
  {
    if i > 0 {
      CallsAlways(cfg, ws, steps, i - 1);
      CallsStep(cfg, ws[i - 1], steps[i - 1]);
    }
  }

  /** No Renew is sent once Release has been attempted, and Release is attempted at most once per
      acquired lease, exactly once when the call is over. */
  lemma ReleaseLastAndOnce(cfg: Config, ws: seq<Cluster>, steps: seq<Step>, i: nat, id: nat)
    requires IsRun(cfg, ws, steps) && i < |ws| && id in ws[i].calls
    ensures var c := ws[i].calls[id];
            && ws[i].releases[c.token] == (if c.phase.Done? then 1 else 0)
            && (ws[i].releases[c.token] > 0 ==> forall net :: !Enabled(cfg, ws[i], RenewTick(id, net)))
  {
    CallsAlways(cfg, ws, steps, i);
    assert CallOk(ws[i], ws[i].calls[id]);
  }

  // ---- every call can finish ----

  /** The next step of a call that is not over; only its own goroutines have to act. */
  function OwnStep(id: nat, c: Call): Step {
    match c.phase
    case Acquired => Begin(id)
    case Dispatching => EnqueueReturns(id)
    case Returned => if c.renewer.Running? then RenewerStops(id) else Join(id)
    case _ => TryRelease(id, Delivered)
  }

  function StepsLeft(c: Call): nat {
    match c.phase
    case Acquired => 5
    case Dispatching => 4
    case Returned => if c.renewer.Running? then 3 else 2
    case Stopped => 1
    case Done => 0
  }

  /** The store still holds the token, unexpired. */
  predicate Holds(w: Cluster, key: string, token: string) {
    key in w.store && w.store[key].token == token && w.now < w.store[key].expireAt
  }

  lemma OwnStepAdvances(cfg: Config, w: Cluster, id: nat)
    requires CallsOk(w) && id in w.calls && !w.calls[id].phase.Done?
    ensures Enabled(cfg, w, OwnStep(id, w.calls[id]))
    ensures var c := w.calls[id]; var next := Next(cfg, w, OwnStep(id, c));
      && next.now == w.now && id in next.calls && StepsLeft(next.calls[id]) < StepsLeft(c)
      && next.calls[id].key == c.key && next.calls[id].token == c.token
      && (next.calls[id].phase.Done? ==> !Holds(next, c.key, c.token))
  {
    assert CallOk(w, w.calls[id]);
  }

  lemma Extend(cfg: Config, ws: seq<Cluster>, steps: seq<Step>, a: Step)
    requires IsRun(cfg, ws, steps) && Enabled(cfg, ws[|steps|], a)
    ensures IsRun(cfg, ws + [Next(cfg, ws[|steps|], a)], steps + [a])
  {
  }

  /** At every moment of every run each call that is not over can be finished by its own steps alone, in no
      time, whatever the others do not do; its token then holds no lock. */
  lemma CallCanFinish(cfg: Config, ws: seq<Cluster>, steps: seq<Step>, id: nat) returns (ws': seq<Cluster>, steps': seq<Step>)
    requires IsRun(cfg, ws, steps) && id in ws[|steps|].calls && !ws[|steps|].calls[id].phase.Done?
    ensures IsRun(cfg, ws', steps') && ws <= ws' && steps <= steps'
    ensures var c, last := ws[|steps|].calls[id], ws'[|steps'|];
      last.now == ws[|steps|].now && id in last.calls && last.calls[id].phase.Done? && !Holds(last, c.key, c.token)
    decreases StepsLeft(ws[|steps|].calls[id])
  {
    var w := ws[|steps|];
    CallsAlways(cfg, ws, steps, |steps|);
    OwnStepAdvances(cfg, w, id);
    var a := OwnStep(id, w.calls[id]);
    Extend(cfg, ws, steps, a);
    ws', steps' := ws + [Next(cfg, w, a)], steps + [a];
    if !Next(cfg, w, a).calls[id].phase.Done? {
      ws', steps' := CallCanFinish(cfg, ws', steps', id);
    }
  }

  /** A renewal that does not reach the store changes nothing there, one whose reply is lost does; the
      renewal goroutine goes on exactly after a confirmed renewal, which sets the full lifetime. */
  lemma RenewTickExactly(cfg: Config, ws: seq<Cluster>, steps: seq<Step>, i: nat)
    requires IsRun(cfg, ws, steps) && i < |steps| && steps[i].RenewTick?
    ensures var RenewTick(id, net) := steps[i];
            var c, w, next := ws[i].calls[steps[i].id], ws[i], ws[i + 1];
      && next.store == (if !net.RequestLost? && Holds(w, c.key, c.token) then w.store[c.key := Entry(c.token, w.now + cfg.ttl)] else w.store)
      && (next.calls[id].renewer.Running? <==> net.Delivered? && Holds(w, c.key, c.token))
  {
    assert ws[i + 1] == Next(cfg, ws[i], steps[i]);
  }

  // ---- mutual exclusion of the dispatch sections ----

  /** A call inside its section is on time, and the store still holds its token for long enough. */
  predicate Protected(cfg: Config, w: Cluster, c: Call) {
    && c.at <= w.now && (c.phase.Dispatching? ==> c.at <= c.start <= c.at + cfg.lag)
    && InTime(cfg, c, w.now)
    && c.key in w.store && w.store[c.key].token == c.token && c.at + cfg.ttl <= w.store[c.key].expireAt
  }

  predicate AllProtected(cfg: Config, w: Cluster) {
    forall i :: i in w.calls && Inside(w.calls[i]) ==> Protected(cfg, w, w.calls[i])
  }

  lemma ProtectedStep(cfg: Config, w: Cluster, a: Step)
    requires cfg.lag + cfg.timeout < cfg.ttl
    requires CallsOk(w) && AllProtected(cfg, w) && Enabled(cfg, w, a)
    ensures AllProtected(cfg, Next(cfg, w, a))
  {
    var next := Next(cfg, w, a);
    forall i | i in next.calls && Inside(next.calls[i]) ensures Protected(cfg, next, next.calls[i]) {
      CallStaysProtected(cfg, w, a, i);
    }
  }

  /** The store holds the call's token at least until the lifetime of its first acquisition is over. */
  predicate Backed(cfg: Config, store: Store, c: Call) {
    c.key in store && store[c.key].token == c.token && c.at + cfg.ttl <= store[c.key].expireAt
  }

  /** No acquisition or renewal by anyone, and no release by another call, takes that away in time. */
  lemma LockKeeps(cfg: Config, w: Cluster, c: Call, e: Event)
    requires Backed(cfg, w.store, c) && c.at <= w.now < c.at + cfg.ttl
    requires e.Acquire? || (e.Renew? && e.ttl == cfg.ttl) || (e.Release? && e.token != c.token)
    ensures Backed(cfg, LockEffect(cfg, w, e).0, c)
  {
  }

  lemma StoreKeeps(cfg: Config, w: Cluster, a: Step, i: nat)
    requires CallsOk(w) && Enabled(cfg, w, a) && i in w.calls && Inside(w.calls[i])
    requires Backed(cfg, w.store, w.calls[i]) && w.calls[i].at <= w.now < w.calls[i].at + cfg.ttl
    ensures Backed(cfg, Next(cfg, w, a).store, w.calls[i])
  {
    var c := w.calls[i];
    match a
    case TryAcquire(_, k, t) => LockKeeps(cfg, w, c, Event.Acquire(k, t, cfg.ttl));
    case RenewTick(j, _) => LockKeeps(cfg, w, c, Event.Renew(w.calls[j].key, w.calls[j].token, cfg.ttl));
    case TryRelease(j, _) => LockKeeps(cfg, w, c, Event.Release(w.calls[j].key, w.calls[j].token));
    case _ =>
  }

  /** A call keeps its key, token and acquisition time. */
  lemma CallKeeps(cfg: Config, w: Cluster, a: Step, i: nat)
    requires Enabled(cfg, w, a) && i in w.calls && Inside(Next(cfg, w, a).calls[i])
    ensures var c, d := w.calls[i], Next(cfg, w, a).calls[i];
      && Inside(c) && d.key == c.key && d.token == c.token && d.at == c.at
      && ((d.phase == c.phase && d.start == c.start) || (c.phase.Acquired? && d.phase.Dispatching? && d.start == w.now))
  {
  }

  lemma NewCallProtected(cfg: Config, w: Cluster, a: Step, i: nat)
    requires Enabled(cfg, w, a) && i !in w.calls && i in Next(cfg, w, a).calls
    ensures Protected(cfg, Next(cfg, w, a), Next(cfg, w, a).calls[i])
  {
  }

  lemma CallStaysProtected(cfg: Config, w: Cluster, a: Step, i: nat)
    requires cfg.lag + cfg.timeout < cfg.ttl
    requires CallsOk(w) && AllProtected(cfg, w) && Enabled(cfg, w, a)
    requires i in Next(cfg, w, a).calls && Inside(Next(cfg, w, a).calls[i])
    ensures Protected(cfg, Next(cfg, w, a), Next(cfg, w, a).calls[i])
  {
    if i in w.calls {
      CallKeeps(cfg, w, a, i);
      assert Protected(cfg, w, w.calls[i]);
      StoreKeeps(cfg, w, a, i);
      if a.Elapse? {
        assert InTime(cfg, w.calls[i], w.now + a.elapsed);
      }
    } else {
      NewCallProtected(cfg, w, a, i);
    }
  }

  lemma {:induction false} ProtectedAlways(cfg: Config, ws: seq<Cluster>, steps: seq<Step>, i: nat)
    requires cfg.lag + cfg.timeout < cfg.ttl
    requires IsRun(cfg, ws, steps) && i < |ws|
    ensures AllProtected(cfg, ws[i])
  {
    if i > 0 {
      ProtectedAlways(cfg, ws, steps, i - 1);
      CallsAlways(cfg, ws, steps, i - 1);
      ProtectedStep(cfg, ws[i - 1], steps[i - 1]);
    }
  }

  predicate Overlap(w: Cluster, i: nat, j: nat) {
    i in w.calls && j in w.calls && i != j && w.calls[i].key == w.calls[j].key
    && Inside(w.calls[i]) && Inside(w.calls[j])
  }

  /** The acquire-to-enqueue sections of two instances for the same task and second never overlap,
      even when every renewal fails. */
  lemma SectionsNeverOverlap(cfg: Config, ws: seq<Cluster>, steps: seq<Step>, n: nat, i: nat, j: nat)
    requires cfg.lag + cfg.timeout < cfg.ttl
    requires IsRun(cfg, ws, steps) && n < |ws|
    ensures !Overlap(ws[n], i, j)
  {
    ProtectedAlways(cfg, ws, steps, n);
    CallsAlways(cfg, ws, steps, n);
  }

  /** The condition is necessary: otherwise two sections can overlap. */
  lemma SectionsCanOverlap(cfg: Config) returns (ws: seq<Cluster>, steps: seq<Step>)
    requires cfg.ttl >= 1 && cfg.ttl <= cfg.lag + cfg.timeout
    ensures IsRun(cfg, ws, steps) && Overlap(ws[|ws| - 1], 1, 2)
  {
    var first := if cfg.lag <= cfg.ttl then cfg.lag else cfg.ttl;
    steps := [TryAcquire(1, "k", "t"), Elapse(first), Begin(1), Elapse(cfg.ttl - first), TryAcquire(2, "k", "u")];
    var w1 := Next(cfg, Init(), steps[0]);
    assert w1.calls == map[1 := Call(Acquired, "k", "t", 0, 0, NotStarted)] && w1.store == map["k" := Entry("t", cfg.ttl)];
    var w2 := Next(cfg, w1, steps[1]);
    var w3 := Next(cfg, w2, steps[2]);
    assert w3.calls == map[1 := Call(Dispatching, "k", "t", 0, first, Running)];
    var w4 := Next(cfg, w3, steps[3]);
    var w5 := Next(cfg, w4, steps[4]);
    ws := [Init(), w1, w2, w3, w4, w5];
  }
}
