/** Locks with a time to live. `Live` is the abstract lock: the map from keys to their unexpired
    holder. The Redis and the Postgres store keep expired entries around in different ways and both
    simulate it. Times and lifetimes are milliseconds on one shared clock. */
module TtlLock {

  datatype Entry = Entry(token: string, expireAt: nat)

  type Live = map<string, Entry>
  type Store = map<string, Entry>

  // ---- the abstract lock ----

  function Acquired(live: Live, key: string, e: Entry): (Live, bool) {
    if key in live then (live, false) else (live[key := e], true)
  }

  function Renewed(live: Live, key: string, e: Entry): (Live, bool) {
    if key in live && live[key].token == e.token then (live[key := e], true) else (live, false)
  }

  function Released(live: Live, key: string, token: string): (Live, bool) {
    if key in live && live[key].token == token then (live - {key}, true) else (live, false)
  }

  /** The entries that are still unexpired at `now`. */
  function Unexpired(s: Store, now: nat): Live {
    map k | k in s && now < s[k].expireAt :: s[k]
  }

  // ---- Redis: a key is invisible from its expiry on ----

  /** SET NX PX. */
  function RedisAcquire(s: Store, now: nat, key: string, e: Entry): (Store, bool) {
    if key in s && now < s[key].expireAt then (s, false) else (s[key := e], true)
  }

  /** The renew script. */
  function RedisRenew(s: Store, now: nat, key: string, e: Entry): (Store, bool) {
    if key in s && now < s[key].expireAt && s[key].token == e.token then (s[key := e], true) else (s, false)
  }

  /** The release script. */
  function RedisRelease(s: Store, now: nat, key: string, token: string): (Store, bool) {
    if key in s && now < s[key].expireAt && s[key].token == token then (s - {key}, true) else (s, false)
  }

  // ---- Postgres: rows stay until they are replaced or deleted ----

  /** INSERT ... ON CONFLICT DO UPDATE ... WHERE expires_at <= NOW(). */
  function PgAcquire(s: Store, now: nat, key: string, e: Entry): (Store, bool) {
    if key !in s then (s[key := e], true)
    else if s[key].expireAt <= now then (s[key := e], true)
    else (s, false)
  }

  /** UPDATE ... WHERE lock_key AND token AND expires_at > NOW(). */
  function PgRenew(s: Store, now: nat, key: string, e: Entry): (Store, bool) {
    if key in s && s[key].token == e.token && s[key].expireAt > now then (s[key := e], true) else (s, false)
  }

  /** DELETE ... WHERE lock_key AND token, whatever the expiry. */
  function PgRelease(s: Store, now: nat, key: string, token: string): (Store, bool) {
    if key in s && s[key].token == token then (s - {key}, true) else (s, false)
  }

  // ---- events of any number of clients ----

  datatype Event =
    | Tick(elapsed: nat)
    | Acquire(key: string, token: string, ttl: nat)
    | Renew(key: string, token: string, ttl: nat)
    | Release(key: string, token: string)

  datatype State = State(store: Store, now: nat)

  datatype Form = Redis | Postgres

  /** The new store and the answer the client gets. */
  function Perform(f: Form, s: State, e: Event): (State, bool) {
    match e
    case Tick(d) => (s.(now := s.now + d), true)
    case Acquire(k, t, ttl) =>
      var (store, ok) := if f.Redis? then RedisAcquire(s.store, s.now, k, Entry(t, s.now + ttl)) else PgAcquire(s.store, s.now, k, Entry(t, s.now + ttl));
      (s.(store := store), ok)
    case Renew(k, t, ttl) =>
      var (store, ok) := if f.Redis? then RedisRenew(s.store, s.now, k, Entry(t, s.now + ttl)) else PgRenew(s.store, s.now, k, Entry(t, s.now + ttl));
      (s.(store := store), ok)
    case Release(k, t) =>
      var (store, ok) := if f.Redis? then RedisRelease(s.store, s.now, k, t) else PgRelease(s.store, s.now, k, t);
      (s.(store := store), ok)
  }

  /** The abstract lock on the same event. */
  function Abstract(live: Live, now: nat, e: Event): (Live, bool) {
    match e
    case Tick(d) => (Unexpired(live, now + d), true)
    case Acquire(k, t, ttl) => Acquired(live, k, Entry(t, now + ttl))
    case Renew(k, t, ttl) => Renewed(live, k, Entry(t, now + ttl))
    case Release(k, t) => Released(live, k, t)
  }

  predicate PositiveTtl(e: Event) {
    (e.Acquire? || e.Renew?) ==> e.ttl >= 1
  }

  /** Each step of either store is a step of the abstract lock with the same Acquire and Renew
      answers; Postgres alone also confirms the release of a lock that had already expired. */
  lemma Simulates(f: Form, s: State, e: Event)
    requires PositiveTtl(e)
    ensures var (next, ok) := Perform(f, s, e);
            var (live, answer) := Abstract(Unexpired(s.store, s.now), s.now, e);
            && Unexpired(next.store, next.now) == live
            && (ok == answer || (e.Release? && f.Postgres? && ok && ExpiredHolder(s, e.key, e.token)))
  {
    match e
    case Tick(d) =>
      assert Unexpired(Unexpired(s.store, s.now), s.now + d) == Unexpired(s.store, s.now + d);
    case Acquire(k, t, ttl) =>
    case Renew(k, t, ttl) =>
    case Release(k, t) =>
  }

  predicate ExpiredHolder(s: State, key: string, token: string) {
    key in s.store && s.store[key].token == token && s.store[key].expireAt <= s.now
  }

  function LiveAt(s: State): Live {
    Unexpired(s.store, s.now)
  }

  function Answer(f: Form, s: State, e: Event): bool {
    Perform(f, s, e).1
  }

  /** States with the same live locks stay that way, and answer Acquire and Renew alike. */
  lemma FormsAgree(r: State, p: State, e: Event)
    requires PositiveTtl(e) && r.now == p.now && LiveAt(r) == LiveAt(p)
    ensures var (r', p') := (Perform(Redis, r, e).0, Perform(Postgres, p, e).0);
            r'.now == p'.now && LiveAt(r') == LiveAt(p')
    ensures !e.Release? ==> Answer(Redis, r, e) == Answer(Postgres, p, e)
    ensures Answer(Redis, r, e) ==> Answer(Postgres, p, e)
  {
    Simulates(Redis, r, e);
    Simulates(Postgres, p, e);
  }

  /** On the same events the two providers hold the same live locks at every moment and give the
      same answers to Acquire and Renew. */
  lemma {:induction false} ProvidersAgree(es: seq<Event>)
    requires forall i :: 0 <= i < |es| ==> PositiveTtl(es[i])
    ensures var (r, p) := (Final(Redis, es), Final(Postgres, es));
            r.now == p.now && LiveAt(r) == LiveAt(p)
    ensures Answers(Redis, es) == Answers(Postgres, es)
  {
    if es != [] {
      var init, last := es[..|es| - 1], es[|es| - 1];
      ProvidersAgree(init);
      FormsAgree(Final(Redis, init), Final(Postgres, init), last);
    }
  }

  /** The state after the events, from an empty store. */
  function Final(f: Form, es: seq<Event>): State {
    if es == [] then State(map[], 0) else Perform(f, Final(f, es[..|es| - 1]), es[|es| - 1]).0
  }

  /** The answers to the Acquire and Renew events, in order. */
  function Answers(f: Form, es: seq<Event>): seq<bool> {
    if es == [] then []
    else
      var init, last := es[..|es| - 1], es[|es| - 1];
      Answers(f, init) + (if last.Acquire? || last.Renew? then [Answer(f, Final(f, init), last)] else [])
  }

  // ---- what clients may rely on ----

  /** A client's belief: its token holds `key` until the stored expiry. */
  datatype Grant = Grant(key: string, expireAt: nat)

  /** The lock state with the running beliefs and the key each token was drawn for. */
  datatype World = World(s: State, grants: map<string, Grant>, drawn: map<string, string>)

  predicate Enabled(w: World, e: Event) {
    PositiveTtl(e) && (e.Acquire? ==> e.token !in w.drawn)
  }

  /** A successful Acquire or Renew grants until the stored expiry; an answered Release ends it. */
  function Step(f: Form, w: World, e: Event): World {
    var (s, ok) := Perform(f, w.s, e);
    match e
    case Tick(_) => w.(s := s)
    case Acquire(k, t, ttl) =>
      World(s, if ok then w.grants[t := Grant(k, w.s.now + ttl)] else w.grants, w.drawn[t := k])
    case Renew(k, t, ttl) => World(s, if ok then w.grants[t := Grant(k, w.s.now + ttl)] else w.grants, w.drawn)
    case Release(k, t) => World(s, if ok then w.grants - {t} else w.grants, w.drawn)
  }

  ghost predicate IsRun(f: Form, ws: seq<World>, es: seq<Event>) {
    && |ws| == |es| + 1 && ws[0] == World(State(map[], 0), map[], map[])
    && forall i :: 0 <= i < |es| ==> Enabled(ws[i], es[i]) && ws[i + 1] == Step(f, ws[i], es[i])
  }

  /** Every stored or believed token was drawn for its key, and a belief that still runs is what the
      store holds. */
  ghost predicate Backed(w: World) {
    Drawn(w) && forall t :: t in w.grants ==> GrantBacked(w, t)
  }

  ghost predicate Drawn(w: World) {
    && (forall k :: k in w.s.store ==> w.s.store[k].token in w.drawn && w.drawn[w.s.store[k].token] == k)
    && (forall t :: t in w.grants ==> t in w.drawn && w.drawn[t] == w.grants[t].key)
  }

  predicate GrantBacked(w: World, t: string)
    requires t in w.grants
  {
    var k := w.grants[t].key;
    w.s.now < w.grants[t].expireAt ==> k in w.s.store && w.s.store[k] == Entry(t, w.grants[t].expireAt)
  }

  lemma DrawnStep(f: Form, w: World, e: Event)
    requires Backed(w) && Enabled(w, e)
    ensures Drawn(Step(f, w, e))
  {
  }

  lemma GrantStep(f: Form, w: World, e: Event, t: string)
    requires Backed(w) && Enabled(w, e) && t in Step(f, w, e).grants
    ensures GrantBacked(Step(f, w, e), t)
  {
    if t in w.grants {
      assert GrantBacked(w, t);
    }
  }

  lemma BackedStep(f: Form, w: World, e: Event)
    requires Backed(w) && Enabled(w, e)
    ensures Backed(Step(f, w, e))
  {
    DrawnStep(f, w, e);
    forall t | t in Step(f, w, e).grants ensures GrantBacked(Step(f, w, e), t) {
      GrantStep(f, w, e, t);
    }
  }

  lemma {:induction false} BackedAlways(f: Form, ws: seq<World>, es: seq<Event>, i: nat)
    requires IsRun(f, ws, es) && i < |ws|
    ensures Backed(ws[i])
  {
    if i > 0 {
      BackedAlways(f, ws, es, i - 1);
      BackedStep(f, ws[i - 1], es[i - 1]);
    }
  }

  predicate Holds(w: World, t: string, key: string) {
    t in w.grants && w.grants[t].key == key && w.s.now < w.grants[t].expireAt
  }

  /** Mutual exclusion: at any moment of any run at most one client holds a key. */
  lemma MutualExclusion(f: Form, ws: seq<World>, es: seq<Event>, i: nat, t: string, u: string, key: string)
    requires IsRun(f, ws, es) && i < |ws|
    requires Holds(ws[i], t, key) && Holds(ws[i], u, key)
    ensures t == u
  {
    BackedAlways(f, ws, es, i);
  }

  predicate IsLive(w: World, t: string) {
    exists k :: k in LiveAt(w.s) && LiveAt(w.s)[k].token == t
  }

  /** A client whose token is not the live one of a key can neither extend nor free that lock. */
  lemma SupersededIsPowerless(f: Form, ws: seq<World>, es: seq<Event>, i: nat)
    requires IsRun(f, ws, es) && i < |es| && (es[i].Renew? || es[i].Release?)
    requires es[i].key in LiveAt(ws[i].s) && LiveAt(ws[i].s)[es[i].key].token != es[i].token
    ensures !Answer(f, ws[i].s, es[i]) && ws[i + 1].s == ws[i].s && ws[i + 1].grants == ws[i].grants
  {
  }

  lemma DeadStaysDead(f: Form, w: World, e: Event, t: string)
    requires Backed(w) && Enabled(w, e) && t in w.drawn && !IsLive(w, t)
    ensures t in Step(f, w, e).drawn && !IsLive(Step(f, w, e), t)
  {
    Simulates(f, w.s, e);
    var next := Step(f, w, e);
    forall k | k in LiveAt(next.s) ensures LiveAt(next.s)[k].token != t {
      if k in LiveAt(w.s) {
        assert LiveAt(w.s)[k].token != t;
      }
    }
  }

  /** A lock that expired or was released never comes back under the same token. */
  lemma {:induction false} LostForever(f: Form, ws: seq<World>, es: seq<Event>, i: nat, j: nat, t: string)
    requires IsRun(f, ws, es) && i <= j < |ws| && t in ws[i].drawn && !IsLive(ws[i], t)
    ensures t in ws[j].drawn && !IsLive(ws[j], t)
  {
    if i < j {
      LostForever(f, ws, es, i, j - 1, t);
      BackedAlways(f, ws, es, j - 1);
      DeadStaysDead(f, ws[j - 1], es[j - 1], t);
    }
  }

  lemma DeadTokenStep(f: Form, w: World, e: Event)
    requires Enabled(w, e) && (e.Renew? || e.Release?) && !IsLive(w, e.token)
    ensures LiveAt(Step(f, w, e).s) == LiveAt(w.s) && (e.Renew? ==> !Answer(f, w.s, e))
  {
    Simulates(f, w.s, e);
    if e.key in LiveAt(w.s) {
      assert LiveAt(w.s)[e.key].token != e.token;
    }
  }

  /** Once a token has expired, was released or was refused, every later Renew with it is turned away,
      and no later Renew or Release with it changes any live lock, on its own key or another. */
  lemma LostTokenIsPowerless(f: Form, ws: seq<World>, es: seq<Event>, i: nat, j: nat)
    requires IsRun(f, ws, es) && i <= j < |es| && (es[j].Renew? || es[j].Release?)
    requires es[j].token in ws[i].drawn && !IsLive(ws[i], es[j].token)
    ensures LiveAt(ws[j + 1].s) == LiveAt(ws[j].s) && (es[j].Renew? ==> !Answer(f, ws[j].s, es[j]))
  {
    LostForever(f, ws, es, i, j, es[j].token);
    DeadTokenStep(f, ws[j], es[j]);
  }
}
