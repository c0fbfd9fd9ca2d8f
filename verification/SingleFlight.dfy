/** The response cache under concurrency: requests look a key up, coalesce on a request group, and the
    leader runs the handler and stores what it produced. Every store call, mutex section, handler run
    and wake-up is one step; any number of requests interleave, and the store may drop entries or fail
    at any time. Panicking handlers are not part of the model. */
module SingleFlight {
  import opened Text

  /** `ttl` is positive and `swr` (stale-while-revalidate) not negative after normalisation. */
  datatype Config = Config(ttl: nat, swr: nat)

  /** A finished handler run: the request that made it, its key, its response, and the two clock
      readings taken right after it. */
  datatype Run = Run(request: nat, key: string, status: int, body: string, first: nat, second: nat)

  /** A cached response; `run` is the handler run it was built from. */
  datatype Entry = Entry(status: int, body: string, freshUntil: nat, staleUntil: nat, run: nat)

  datatype Call = Call(leader: nat, key: string, result: Option<Option<Entry>>)

  /** Where a request is. */
  datatype Request =
    | Loading(key: string, now: nat)
    | Probing(key: string, now: nat, entry: Entry)
    | Entering(key: string)
    | Waiting(key: string, call: nat)
    | Leading(key: string, call: nat)
    | Storing(key: string, call: nat, entry: Entry)
    | Signalling(key: string, call: nat, outcome: Option<Entry>)
    | Leaving(key: string, call: nat)
    | Done(key: string)

  datatype Kind = Hit(now: nat) | Stale(now: nat) | Shared(call: nat)

  /** A response served from an entry, as the X-Cache header reports it (shared ones say HIT). */
  datatype Response = Response(request: nat, key: string, kind: Kind, entry: Entry)

  datatype World = World(
    store: map<string, Entry>, group: map<string, nat>, calls: map<nat, Call>, requests: map<nat, Request>,
    runs: map<nat, Run>, served: seq<Response>)

  function Init(): World {
    World(map[], map[], map[], map[], map[], [])
  }

  datatype Event =
    | Arrive(request: nat, key: string, now: nat)
    | Load(request: nat)
    | LoadFails(request: nat)
    | Probe(request: nat)
    | Enter(request: nat, call: nat)
    | HandlerFails(request: nat)
    | HandlerReturns(request: nat, run: nat, status: int, body: string, first: nat, second: nat)
    | StoreSet(request: nat, ok: bool, wrote: bool)
    | Signal(request: nat)
    | Delete(request: nat)
    | Wake(request: nat)
    | Evict(key: string)

  predicate Enabled(w: World, e: Event) {
    match e
    case Arrive(r, _, _) => r !in w.requests
    case Load(r) => r in w.requests && w.requests[r].Loading?
    case LoadFails(r) => r in w.requests && w.requests[r].Loading?
    case Probe(r) => r in w.requests && w.requests[r].Probing?
    case Enter(r, c) => r in w.requests && w.requests[r].Entering? && c !in w.calls
    case HandlerFails(r) => r in w.requests && w.requests[r].Leading?
    case HandlerReturns(r, run, _, _, first, second) =>
      r in w.requests && w.requests[r].Leading? && run !in w.runs && first <= second
    case StoreSet(r, ok, wrote) => r in w.requests && w.requests[r].Storing? && (ok ==> wrote)
    case Signal(r) => r in w.requests && w.requests[r].Signalling? && w.requests[r].call in w.calls
    case Delete(r) => r in w.requests && w.requests[r].Leaving?
    case Wake(r) => r in w.requests && w.requests[r].Waiting? && w.requests[r].call in w.calls && w.calls[w.requests[r].call].result.Some?
    case Evict(_) => true
  }

  /** The state of a looked-up entry at time `now`. */
  datatype Freshness = Fresh | Revalidatable | Expired

  function Classify(c: Config, e: Entry, now: nat): Freshness {
    if now <= e.freshUntil then Fresh
    else if c.swr > 0 && now < e.staleUntil then Revalidatable
    else Expired
  }

  function Move(w: World, r: nat, to: Request): World {
    w.(requests := w.requests[r := to])
  }

  function Serve(w: World, r: nat, kind: Kind, e: Entry): World
    requires r in w.requests
  {
    var key := w.requests[r].key;
    Move(w, r, Done(key)).(served := w.served + [Response(r, key, kind, e)])
  }

  function Loaded(c: Config, w: World, r: nat): World
    requires r in w.requests && w.requests[r].Loading?
  {
    var q := w.requests[r];
    if q.key !in w.store then Move(w, r, Entering(q.key))
    else
      var e := w.store[q.key];
      match Classify(c, e, q.now)
      case Fresh => Serve(w, r, Hit(q.now), e)
      case Revalidatable => Move(w, r, Probing(q.key, q.now, e))
      case Expired => Move(w, r, Entering(q.key))
  }

  /** The first mutex section of Do: join the call in flight or start one. */
  function Entered(w: World, r: nat, c: nat): World
    requires r in w.requests && w.requests[r].Entering?
  {
    var key := w.requests[r].key;
    if key in w.group then Move(w, r, Waiting(key, w.group[key]))
    else Move(w, r, Leading(key, c)).(group := w.group[key := c], calls := w.calls[c := Call(r, key, None)])
  }

  /** What `computeAndStore` builds from a run with status 200. */
  function EntryOf(c: Config, id: nat, run: Run): Entry {
    Entry(run.status, run.body, run.first + c.ttl, run.second + c.ttl + c.swr, id)
  }

  function Returned(c: Config, w: World, r: nat, id: nat, run: Run): World
    requires r in w.requests && w.requests[r].Leading?
  {
    var q := w.requests[r];
    var next := w.(runs := w.runs[id := run]);
    if run.status == 200 then Move(next, r, Storing(q.key, q.call, EntryOf(c, id, run)))
    else Move(next, r, Signalling(q.key, q.call, None))
  }

  function Step(c: Config, w: World, e: Event): World
    requires Enabled(w, e)
  {
    match e
    case Arrive(r, key, now) => Move(w, r, Loading(key, now))
    case Load(r) => Loaded(c, w, r)
    case LoadFails(r) => Move(w, r, Entering(w.requests[r].key))
    case Probe(r) =>
      var q := w.requests[r];
      if q.key in w.group then Serve(w, r, Stale(q.now), q.entry) else Move(w, r, Entering(q.key))
    case Enter(r, id) => Entered(w, r, id)
    case HandlerFails(r) => Move(w, r, Signalling(w.requests[r].key, w.requests[r].call, None))
    case HandlerReturns(r, id, status, body, first, second) =>
      Returned(c, w, r, id, Run(r, w.requests[r].key, status, body, first, second))
    case StoreSet(r, ok, wrote) =>
      var q := w.requests[r];
      Move(w, r, Signalling(q.key, q.call, if ok then Some(q.entry) else None))
        .(store := if wrote then w.store[q.key := q.entry] else w.store)
    case Signal(r) =>
      var q := w.requests[r];
      Move(w, r, Leaving(q.key, q.call)).(calls := w.calls[q.call := w.calls[q.call].(result := Some(q.outcome))])
    case Delete(r) => Move(w, r, Done(w.requests[r].key)).(group := w.group - {w.requests[r].key})
    case Wake(r) =>
      var q := w.requests[r];
      var outcome := w.calls[q.call].result.value;
      if outcome.Some? then Serve(w, r, Shared(q.call), outcome.value) else Move(w, r, Done(q.key))
    case Evict(key) => w.(store := w.store - {key})
  }

  ghost predicate IsRun(c: Config, ws: seq<World>, es: seq<Event>) {
    && |ws| == |es| + 1 && ws[0] == Init()
    && forall i :: 0 <= i < |es| ==> Enabled(ws[i], es[i]) && ws[i + 1] == Step(c, ws[i], es[i])
  }

  // ---- leadership ----

  /** The request runs the handler for a call and has not deleted it yet. */
  predicate Leads(q: Request) {
    q.Leading? || q.Storing? || q.Signalling? || q.Leaving?
  }

  predicate LeadsKey(w: World, r: nat, k: string) {
    r in w.requests && Leads(w.requests[r]) && w.requests[r].key == k
  }

  /** A leader's call is its own and the one in the group, and it has no result before the leader
      signals; a follower waits for a call of its key. */
  predicate RequestOk(w: World, r: nat) {
    r in w.requests ==>
      var q := w.requests[r];
      && (Leads(q) ==>
            && q.key in w.group && w.group[q.key] == q.call
            && q.call in w.calls && w.calls[q.call].leader == r && w.calls[q.call].key == q.key
            && (!q.Leaving? ==> w.calls[q.call].result.None?))
      && (q.Waiting? ==> q.call in w.calls && w.calls[q.call].key == q.key)
  }

  /** The group holds only calls of live leaders. */
  predicate KeyOk(w: World, k: string) {
    k in w.group ==> w.group[k] in w.calls && LeadsKey(w, w.calls[w.group[k]].leader, k)
  }

  ghost predicate LeadersOk(w: World) {
    (forall r :: RequestOk(w, r)) && (forall k :: KeyOk(w, k))
  }

  /** The requests of a step other than the acting one stay where they are. */
  lemma OthersStay(c: Config, w: World, e: Event, r: nat)
    requires Enabled(w, e) && (e.Evict? || r != e.request)
    ensures r in Step(c, w, e).requests <==> r in w.requests
    ensures r in w.requests ==> Step(c, w, e).requests[r] == w.requests[r]
  {
    if !e.Evict? {
      OnlyActorMoves(c, w, e);
    }
  }

  /** A step moves the acting request and no other. */
  lemma OnlyActorMoves(c: Config, w: World, e: Event)
    requires Enabled(w, e) && !e.Evict?
    ensures var next := Step(c, w, e);
      e.request in next.requests && next.requests == w.requests[e.request := next.requests[e.request]]
  {
    match e
    case Load(r) => LoadMovesActor(c, w, r);
    case Enter(r, id) =>
    case HandlerReturns(r, id, status, body, first, second) =>
    case Wake(r) =>
    case _ =>
  }

  lemma LoadMovesActor(c: Config, w: World, r: nat)
    requires r in w.requests && w.requests[r].Loading?
    ensures var next := Loaded(c, w, r);
      r in next.requests && next.requests == w.requests[r := next.requests[r]]
  {
  }

  /** Calls are only added, and only their leader gives them a result. */
  lemma CallsStay(c: Config, w: World, e: Event, id: nat)
    requires Enabled(w, e) && id in w.calls
    ensures id in Step(c, w, e).calls
    ensures Step(c, w, e).calls[id] == w.calls[id]
         || (e.Signal? && w.requests[e.request].call == id
             && Step(c, w, e).calls[id] == w.calls[id].(result := Some(w.requests[e.request].outcome)))
  {
  }

  /** A key stays in the group, with its call, unless its leader deletes it. */
  lemma GroupStays(c: Config, w: World, e: Event, k: string)
    requires Enabled(w, e) && k in w.group && !(e.Delete? && w.requests[e.request].key == k)
    ensures k in Step(c, w, e).group && Step(c, w, e).group[k] == w.group[k]
  {
  }

  lemma OtherRequestOk(c: Config, w: World, e: Event, r: nat)
    requires LeadersOk(w) && Enabled(w, e) && (e.Evict? || r != e.request)
    ensures RequestOk(Step(c, w, e), r)
  {
    assert RequestOk(w, r);
    OthersStay(c, w, e, r);
    if r in w.requests && (Leads(w.requests[r]) || w.requests[r].Waiting?) {
      var q := w.requests[r];
      CallsStay(c, w, e, q.call);
      if !e.Evict? {
        assert RequestOk(w, e.request);
      }
      if Leads(q) {
        GroupStays(c, w, e, q.key);
      }
    }
  }

  lemma ActingRequestOk(c: Config, w: World, e: Event)
    requires LeadersOk(w) && Enabled(w, e) && !e.Evict?
    ensures RequestOk(Step(c, w, e), e.request)
  {
    assert RequestOk(w, e.request);
    if e.Enter? {
      EnteringRequestOk(c, w, e);
    }
  }

  lemma EnteringRequestOk(c: Config, w: World, e: Event)
    requires LeadersOk(w) && Enabled(w, e) && e.Enter?
    ensures RequestOk(Step(c, w, e), e.request)
  {
    var key := w.requests[e.request].key;
    assert KeyOk(w, key);
    if key in w.group {
      assert RequestOk(w, w.calls[w.group[key]].leader);
    }
  }

  lemma KeyStaysOk(c: Config, w: World, e: Event, k: string)
    requires LeadersOk(w) && Enabled(w, e)
    ensures KeyOk(Step(c, w, e), k)
  {
    assert KeyOk(w, k);
    if !e.Evict? {
      assert RequestOk(w, e.request);
    }
    if k in w.group && !(e.Delete? && w.requests[e.request].key == k) {
      GroupStays(c, w, e, k);
      CallsStay(c, w, e, w.group[k]);
      var leader := w.calls[w.group[k]].leader;
      assert RequestOk(w, leader);
      if e.Evict? || leader != e.request {
        OthersStay(c, w, e, leader);
      }
    }
  }

  lemma LeadersStep(c: Config, w: World, e: Event)
    requires LeadersOk(w) && Enabled(w, e)
    ensures LeadersOk(Step(c, w, e))
  {
    forall r ensures RequestOk(Step(c, w, e), r) {
      if e.Evict? || r != e.request {
        OtherRequestOk(c, w, e, r);
      } else {
        ActingRequestOk(c, w, e);
      }
    }
    forall k ensures KeyOk(Step(c, w, e), k) {
      KeyStaysOk(c, w, e, k);
    }
  }

  // ---- where entries come from ----

  /** The entry was built from a status-200 run for this key. */
  ghost predicate FromRun(c: Config, w: World, k: string, e: Entry) {
    && e.run in w.runs
    && w.runs[e.run].key == k && w.runs[e.run].status == 200
    && e == EntryOf(c, e.run, w.runs[e.run])
  }

  ghost predicate FromRunOf(c: Config, w: World, r: nat, k: string, e: Entry) {
    FromRun(c, w, k, e) && w.runs[e.run].request == r
  }

  /** An entry a request holds is from a run for its key, and a leader's is from its own run. */
  ghost predicate HeldOk(c: Config, w: World, r: nat) {
    r in w.requests ==>
      match w.requests[r]
      case Probing(k, now, e) => FromRun(c, w, k, e) && Classify(c, e, now) == Revalidatable
      case Storing(k, _, e) => FromRunOf(c, w, r, k, e)
      case Signalling(k, _, Some(e)) => FromRunOf(c, w, r, k, e)
      case _ => true
  }

  ghost predicate CallOk(c: Config, w: World, id: nat) {
    id in w.calls && w.calls[id].result.Some? && w.calls[id].result.value.Some? ==>
      FromRunOf(c, w, w.calls[id].leader, w.calls[id].key, w.calls[id].result.value.value)
  }

  ghost predicate ServedOk(c: Config, w: World, s: Response) {
    && FromRun(c, w, s.key, s.entry)
    && match s.kind
       case Hit(now) => now <= s.entry.freshUntil
       case Stale(now) => s.entry.freshUntil < now < s.entry.staleUntil && c.swr > 0
       case Shared(id) => id in w.calls && w.calls[id].key == s.key && w.calls[id].result == Some(Some(s.entry))
  }

  ghost predicate SourcesOk(c: Config, w: World) {
    && (forall k :: k in w.store ==> FromRun(c, w, k, w.store[k]))
    && (forall r :: HeldOk(c, w, r))
    && (forall id :: CallOk(c, w, id))
    && (forall i :: 0 <= i < |w.served| ==> ServedOk(c, w, w.served[i]))
  }

  /** Runs and results of calls never change. */
  ghost predicate Grows(w: World, next: World) {
    && (forall id :: id in w.runs ==> id in next.runs && next.runs[id] == w.runs[id])
    && (forall id :: id in w.calls && w.calls[id].result.Some? ==> id in next.calls && next.calls[id] == w.calls[id])
  }

  lemma StepGrows(c: Config, w: World, e: Event)
    requires LeadersOk(w) && Enabled(w, e)
    ensures Grows(w, Step(c, w, e))
  {
    var next := Step(c, w, e);
    forall id | id in w.calls && w.calls[id].result.Some? ensures id in next.calls && next.calls[id] == w.calls[id] {
      CallsStay(c, w, e, id);
      if e.Signal? {
        assert RequestOk(w, e.request);
      }
    }
  }

  lemma ServedStays(c: Config, w: World, next: World, s: Response)
    requires Grows(w, next) && ServedOk(c, w, s)
    ensures ServedOk(c, next, s)
  {
  }

  lemma StoreEffect(c: Config, w: World, e: Event, k: string)
    requires Enabled(w, e) && k in Step(c, w, e).store
    ensures (k in w.store && Step(c, w, e).store[k] == w.store[k])
         || (e.StoreSet? && w.requests[e.request].key == k && Step(c, w, e).store[k] == w.requests[e.request].entry)
  {
  }

  lemma StoreStays(c: Config, w: World, e: Event, k: string)
    requires SourcesOk(c, w) && LeadersOk(w) && Enabled(w, e) && k in Step(c, w, e).store
    ensures FromRun(c, Step(c, w, e), k, Step(c, w, e).store[k])
  {
    StepGrows(c, w, e);
    StoreEffect(c, w, e, k);
    if e.StoreSet? {
      assert HeldOk(c, w, e.request);
    }
  }

  lemma HeldStays(c: Config, w: World, e: Event, r: nat)
    requires SourcesOk(c, w) && LeadersOk(w) && Enabled(w, e)
    ensures HeldOk(c, Step(c, w, e), r)
  {
    StepGrows(c, w, e);
    assert HeldOk(c, w, r);
    if e.Evict? || r != e.request {
      OthersStay(c, w, e, r);
    } else {
      ActorHolds(c, w, e);
    }
  }

  lemma ActorHolds(c: Config, w: World, e: Event)
    requires SourcesOk(c, w) && Enabled(w, e) && !e.Evict?
    ensures HeldOk(c, Step(c, w, e), e.request)
  {
    assert HeldOk(c, w, e.request);
  }

  lemma CallStays(c: Config, w: World, e: Event, id: nat)
    requires SourcesOk(c, w) && LeadersOk(w) && Enabled(w, e)
    ensures CallOk(c, Step(c, w, e), id)
  {
    StepGrows(c, w, e);
    assert CallOk(c, w, id);
    if id in w.calls {
      CallsStay(c, w, e, id);
    }
    if e.Signal? {
      assert HeldOk(c, w, e.request);
      assert RequestOk(w, e.request);
    }
  }

  /** At most one response is added per step, and it is justified. */
  lemma ServedStep(c: Config, w: World, e: Event)
    requires SourcesOk(c, w) && LeadersOk(w) && Enabled(w, e)
    ensures Step(c, w, e).served == w.served ||
            exists s :: Step(c, w, e).served == w.served + [s] && ServedOk(c, Step(c, w, e), s)
  {
    var next := Step(c, w, e);
    StepGrows(c, w, e);
    if next.served != w.served {
      var r := e.request;
      assert HeldOk(c, w, r);
      if e.Wake? {
        assert CallOk(c, w, w.requests[r].call);
        assert RequestOk(w, r);
      }
      var s := next.served[|w.served|];
      assert next.served == w.served + [s];
      assert ServedOk(c, next, s);
    }
  }

  lemma SourcesStep(c: Config, w: World, e: Event)
    requires SourcesOk(c, w) && LeadersOk(w) && Enabled(w, e)
    ensures SourcesOk(c, Step(c, w, e))
  {
    var next := Step(c, w, e);
    forall k | k in next.store ensures FromRun(c, next, k, next.store[k]) { StoreStays(c, w, e, k); }
    forall r ensures HeldOk(c, next, r) { HeldStays(c, w, e, r); }
    forall id ensures CallOk(c, next, id) { CallStays(c, w, e, id); }
    StepGrows(c, w, e);
    ServedStep(c, w, e);
    forall i | 0 <= i < |next.served| ensures ServedOk(c, next, next.served[i]) {
      if i < |w.served| {
        ServedStays(c, w, next, w.served[i]);
      }
    }
  }

  lemma {:induction false} Invariants(c: Config, ws: seq<World>, es: seq<Event>, i: nat)
    requires IsRun(c, ws, es) && i < |ws|
    ensures LeadersOk(ws[i]) && SourcesOk(c, ws[i])
  {
    if i > 0 {
      Invariants(c, ws, es, i - 1);
      LeadersStep(c, ws[i - 1], es[i - 1]);
      SourcesStep(c, ws[i - 1], es[i - 1]);
    }
  }

  // ---- theorems over all runs ----

  /** At every moment each key has at most one leader. */
  lemma OneLeaderPerKey(c: Config, ws: seq<World>, es: seq<Event>, i: nat, a: nat, b: nat, k: string)
    requires IsRun(c, ws, es) && i < |ws| && LeadsKey(ws[i], a, k) && LeadsKey(ws[i], b, k)
    ensures a == b
  {
    Invariants(c, ws, es, i);
    assert RequestOk(ws[i], a) && RequestOk(ws[i], b);
  }

  /** A leader that has its outcome can always signal it. */
  lemma LeaderCanSignal(c: Config, ws: seq<World>, es: seq<Event>, i: nat, r: nat)
    requires IsRun(c, ws, es) && i < |ws| && r in ws[i].requests && ws[i].requests[r].Signalling?
    ensures Enabled(ws[i], Signal(r))
  {
    Invariants(c, ws, es, i);
    assert RequestOk(ws[i], r);
  }

  /** A leader that leaves deletes its own call and nobody else's. */
  lemma LeaderDeletesOwnCall(c: Config, ws: seq<World>, es: seq<Event>, i: nat)
    requires IsRun(c, ws, es) && i < |es| && es[i].Delete?
    ensures var r := es[i].request; var k := ws[i].requests[r].key;
      && k in ws[i].group && ws[i].group[k] == ws[i].requests[r].call
      && ws[i].group[k] in ws[i].calls && ws[i].calls[ws[i].group[k]].leader == r
      && ws[i + 1].group == ws[i].group - {k}
  {
    Invariants(c, ws, es, i);
    assert RequestOk(ws[i], es[i].request);
  }

  /** A follower is answered with the entry its leader ended with, built from the leader's own
      status-200 run for the same key. */
  lemma FollowerGetsLeadersEntry(c: Config, ws: seq<World>, es: seq<Event>, i: nat, n: nat)
    requires IsRun(c, ws, es) && i < |ws| && n < |ws[i].served| && ws[i].served[n].kind.Shared?
    ensures var s := ws[i].served[n]; var id := s.kind.call;
      && id in ws[i].calls && ws[i].calls[id].result == Some(Some(s.entry))
      && FromRunOf(c, ws[i], ws[i].calls[id].leader, s.key, s.entry)
  {
    Invariants(c, ws, es, i);
    assert ServedOk(c, ws[i], ws[i].served[n]);
    assert CallOk(c, ws[i], ws[i].served[n].kind.call);
  }

  /** Whatever is served from the cache has the body of a status-200 handler run for the same key; a
      HIT from the store is at most `ttl` old, a STALE response between `ttl` and `ttl + swr`. */
  lemma ServedFromHandler(c: Config, ws: seq<World>, es: seq<Event>, i: nat, n: nat)
    requires IsRun(c, ws, es) && i < |ws| && n < |ws[i].served|
    ensures var s := ws[i].served[n];
      && s.entry.run in ws[i].runs
      && var run := ws[i].runs[s.entry.run];
      && run.key == s.key && run.status == 200 && s.entry.body == run.body
      && (s.kind.Hit? ==> s.kind.now <= run.first + c.ttl)
      && (s.kind.Stale? ==> run.first + c.ttl < s.kind.now < run.second + c.ttl + c.swr && c.swr > 0)
  {
    Invariants(c, ws, es, i);
    assert ServedOk(c, ws[i], ws[i].served[n]);
  }

  ghost predicate OtherLeads(w: World, r: nat, k: string) {
    exists u :: u != r && LeadsKey(w, u, k)
  }

  /** A STALE response is given only while some other request leads a call for the key. */
  lemma StaleOnlyWhileRevalidating(c: Config, ws: seq<World>, es: seq<Event>, i: nat)
    requires IsRun(c, ws, es) && i < |es| && |ws[i + 1].served| > |ws[i].served|
    requires ws[i + 1].served[|ws[i].served|].kind.Stale?
    ensures es[i].Probe? && OtherLeads(ws[i], es[i].request, ws[i + 1].served[|ws[i].served|].key)
  {
    Invariants(c, ws, es, i);
    var w := ws[i];
    assert ws[i + 1] == Step(c, w, es[i]);
    var k := w.requests[es[i].request].key;
    assert KeyOk(w, k);
    assert LeadsKey(w, w.calls[w.group[k]].leader, k);
  }

  // ---- what the cache does serve ----

  /** A lookup decides by the entry's windows: served as a HIT while it is fresh; held for a look at the
      request group while it may be served stale; otherwise, or without an entry, off to the group. */
  lemma LoadExactly(c: Config, ws: seq<World>, es: seq<Event>, i: nat)
    requires IsRun(c, ws, es) && i < |es| && es[i].Load?
    ensures var r := es[i].request;
            var Loading(k, now) := ws[i].requests[r];
      if k !in ws[i].store then ws[i + 1].requests[r] == Entering(k) && ws[i + 1].served == ws[i].served
      else
        var e := ws[i].store[k];
        && e.run in ws[i].runs
        && var run := ws[i].runs[e.run];
        && (now <= run.first + c.ttl ==> ws[i + 1].served == ws[i].served + [Response(r, k, Hit(now), e)])
        && (run.first + c.ttl < now < run.second + c.ttl + c.swr && c.swr > 0 ==>
              ws[i + 1].requests[r] == Probing(k, now, e) && ws[i + 1].served == ws[i].served)
        && (now > run.first + c.ttl && (now >= run.second + c.ttl + c.swr || c.swr == 0) ==>
              ws[i + 1].requests[r] == Entering(k) && ws[i + 1].served == ws[i].served)
  {
    Invariants(c, ws, es, i);
    assert ws[i + 1] == Step(c, ws[i], es[i]);
    var k := ws[i].requests[es[i].request].key;
    if k in ws[i].store {
      assert FromRun(c, ws[i], k, ws[i].store[k]);
    }
  }

  /** The look at the group: the held entry is served as STALE exactly while some request leads the key. */
  lemma ProbeExactly(c: Config, ws: seq<World>, es: seq<Event>, i: nat)
    requires IsRun(c, ws, es) && i < |es| && es[i].Probe?
    ensures var r := es[i].request;
            var Probing(k, now, e) := ws[i].requests[r];
      && (OtherLeads(ws[i], r, k) ==> ws[i + 1].served == ws[i].served + [Response(r, k, Stale(now), e)])
      && (!OtherLeads(ws[i], r, k) ==> ws[i + 1].served == ws[i].served && ws[i + 1].requests[r] == Entering(k))
  {
    Invariants(c, ws, es, i);
    var r := es[i].request;
    var k := ws[i].requests[r].key;
    assert ws[i + 1] == Step(c, ws[i], es[i]);
    assert KeyOk(ws[i], k);
    if k in ws[i].group {
      assert LeadsKey(ws[i], ws[i].calls[ws[i].group[k]].leader, k);
    }
    forall u | LeadsKey(ws[i], u, k) ensures k in ws[i].group {
      LeaderHasGroup(ws[i], u, k);
    }
  }

  lemma LeaderHasGroup(w: World, u: nat, k: string)
    requires LeadersOk(w) && LeadsKey(w, u, k)
    ensures k in w.group
  {
    assert RequestOk(w, u);
  }

  /** The event writes or drops the entry of a key. */
  predicate Touches(w: World, e: Event, k: string) {
    || (e.Evict? && e.key == k)
    || (e.StoreSet? && e.wrote && e.request in w.requests && w.requests[e.request].key == k)
  }

  lemma StoredStays(c: Config, w: World, e: Event, k: string)
    requires Enabled(w, e) && !Touches(w, e, k) && k in w.store
    ensures k in Step(c, w, e).store && Step(c, w, e).store[k] == w.store[k]
  {
  }

  /** A stored entry stays until it is evicted or replaced. */
  lemma {:induction false} EntryKept(c: Config, ws: seq<World>, es: seq<Event>, i: nat, j: nat, k: string)
    requires IsRun(c, ws, es) && i <= j < |ws| && k in ws[i].store
    requires forall n :: i <= n < j ==> !Touches(ws[n], es[n], k)
    ensures k in ws[j].store && ws[j].store[k] == ws[i].store[k]
    decreases j
  {
    if i < j {
      EntryKept(c, ws, es, i, j - 1, k);
      StoredStays(c, ws[j - 1], es[j - 1], k);
    }
  }

  /** What a leader has stored is served as a HIT to every request for the key whose clock reading is at
      most `ttl` after the leader's handler returned, unless the entry is evicted or replaced before. */
  lemma HitWhileFresh(c: Config, ws: seq<World>, es: seq<Event>, i: nat, j: nat)
    requires IsRun(c, ws, es) && i < j < |es| && es[i].StoreSet? && es[i].wrote && es[j].Load?
    requires ws[j].requests[es[j].request].key == ws[i].requests[es[i].request].key
    requires var k := ws[i].requests[es[i].request].key; forall n :: i < n < j ==> !Touches(ws[n], es[n], k)
    ensures var leader, r := es[i].request, es[j].request;
            var entry, now := ws[i].requests[leader].entry, ws[j].requests[r].now;
      && entry.run in ws[j].runs && ws[j].runs[entry.run].request == leader && ws[j].runs[entry.run].body == entry.body
      && (now <= ws[j].runs[entry.run].first + c.ttl ==>
            ws[j + 1].served == ws[j].served + [Response(r, ws[i].requests[leader].key, Hit(now), entry)])
  {
    var leader := es[i].request;
    var k, entry := ws[i].requests[leader].key, ws[i].requests[leader].entry;
    Invariants(c, ws, es, i);
    assert HeldOk(c, ws[i], leader);
    assert ws[i + 1] == Step(c, ws[i], es[i]);
    assert k in ws[i + 1].store && ws[i + 1].store[k] == entry;
    EntryKept(c, ws, es, i + 1, j, k);
    RunsStay(c, ws, es, i, j, entry.run);
    LoadExactly(c, ws, es, j);
  }

  /** A handler that returns 200 gives the leader an entry to store, fresh for `ttl` and stale for `swr`
      more; any other status gives it nothing. */
  lemma HandlerReturnsExactly(c: Config, ws: seq<World>, es: seq<Event>, i: nat)
    requires IsRun(c, ws, es) && i < |es| && es[i].HandlerReturns?
    ensures var HandlerReturns(r, id, status, body, first, second) := es[i];
            var Leading(k, call) := ws[i].requests[r];
      && id in ws[i + 1].runs && ws[i + 1].runs[id] == Run(r, k, status, body, first, second)
      && ws[i + 1].requests[r] == if status == 200 then Storing(k, call, Entry(200, body, first + c.ttl, second + c.ttl + c.swr, id))
                                  else Signalling(k, call, None)
  {
    assert ws[i + 1] == Step(c, ws[i], es[i]);
  }

  /** From the moment it is decided until it is signalled the leader carries the outcome of its call;
      afterwards the call does. */
  predicate Carried(w: World, r: nat, k: string, call: nat, outcome: Option<Entry>) {
    || (r in w.requests && w.requests[r] == Signalling(k, call, outcome))
    || (call in w.calls && w.calls[call].result == Some(outcome))
  }

  lemma CarriedStep(c: Config, w: World, e: Event, r: nat, k: string, call: nat, outcome: Option<Entry>)
    requires LeadersOk(w) && Enabled(w, e) && Carried(w, r, k, call, outcome)
    ensures Carried(Step(c, w, e), r, k, call, outcome)
  {
    if call in w.calls && w.calls[call].result == Some(outcome) {
      StepGrows(c, w, e);
    } else {
      assert RequestOk(w, r);
      if e.Evict? || e.request != r {
        OthersStay(c, w, e, r);
      }
    }
  }

  lemma {:induction false} CarriedOn(c: Config, ws: seq<World>, es: seq<Event>, i: nat, j: nat, r: nat, k: string, call: nat,
                                     outcome: Option<Entry>)
    requires IsRun(c, ws, es) && i <= j < |ws| && Carried(ws[i], r, k, call, outcome)
    ensures Carried(ws[j], r, k, call, outcome)
    decreases j
  {
    if i < j {
      CarriedOn(c, ws, es, i, j - 1, r, k, call, outcome);
      Invariants(c, ws, es, j - 1);
      CarriedStep(c, ws[j - 1], es[j - 1], r, k, call, outcome);
    }
  }

  /** How the leader's part ended: its store call worked or not, or there was nothing to store. */
  predicate Decides(c: Config, w: World, e: Event, r: nat, outcome: Option<Entry>)
    requires Enabled(w, e)
  {
    || (e == HandlerFails(r) && outcome == None)
    || (e.HandlerReturns? && e.request == r && e.status != 200 && outcome == None)
    || (e.StoreSet? && e.request == r && outcome == if e.ok then Some(w.requests[r].entry) else None)
  }

  /** Every follower of a call gets the entry its leader stored, and none when the handler failed, did not
      return 200 or the store refused the entry. */
  lemma FollowersShareOutcome(c: Config, ws: seq<World>, es: seq<Event>, i: nat, j: nat, leader: nat, outcome: Option<Entry>)
    requires IsRun(c, ws, es) && i < j < |es| && Decides(c, ws[i], es[i], leader, outcome)
    requires es[j].Wake? && ws[j].requests[es[j].request].call == ws[i].requests[leader].call
    ensures var r, k, call := es[j].request, ws[i].requests[leader].key, ws[i].requests[leader].call;
      ws[j + 1].served == ws[j].served + (if outcome.Some? then [Response(r, ws[j].requests[r].key, Shared(call), outcome.value)] else [])
  {
    var k, call := ws[i].requests[leader].key, ws[i].requests[leader].call;
    assert ws[i + 1] == Step(c, ws[i], es[i]);
    assert Carried(ws[i + 1], leader, k, call, outcome);
    CarriedOn(c, ws, es, i + 1, j, leader, k, call, outcome);
    Invariants(c, ws, es, j);
    assert RequestOk(ws[j], leader);
    assert ws[j + 1] == Step(c, ws[j], es[j]);
  }

  lemma {:induction false} RunsStay(c: Config, ws: seq<World>, es: seq<Event>, i: nat, j: nat, id: nat)
    requires IsRun(c, ws, es) && i <= j < |ws| && id in ws[i].runs
    ensures id in ws[j].runs && ws[j].runs[id] == ws[i].runs[id]
    decreases j
  {
    if i < j {
      RunsStay(c, ws, es, i, j - 1, id);
      Invariants(c, ws, es, j - 1);
      StepGrows(c, ws[j - 1], es[j - 1]);
    }
  }
}
