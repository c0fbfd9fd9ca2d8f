/** Signed requests and their nonces. A request is checked against the clock, then marks its nonce in
    a store that forgets expired entries. Three instants matter: the reading for the skew check, the
    reading inside Use, and the moment Use holds the mutex. */
module Nonce {
  import opened Text

  const MINUTE: nat := 60_000_000_000

  datatype Config = Config(maxClockSkew: nat, nonceTTL: nat, requireNonce: bool)

  /** The defaults of `DefaultConfig` and `normalizeConfig`. */
  const DEFAULT: Config := Config(5 * MINUTE, 10 * MINUTE, true)

  // ---- the store ----

  function Purged(items: map<string, nat>, now: nat): map<string, nat> {
    map k | k in items && now <= items[k] :: items[k]
  }

  /** The answer of Use and the store after it. */
  function Used(items: map<string, nat>, key: string, ttl: nat, now: nat): (bool, map<string, nat>) {
    if Trim(key) == "" then (false, items)
    else
      var kept := Purged(items, now);
      if key in kept && now < kept[key] then (false, kept) else (true, kept[key := now + ttl])
  }

  class InMemoryNonceStore {
    var items: map<string, nat>

    constructor ()
      ensures items == map[]
    {
      items := map[];
    }

    /** Use accepts a key exactly when it is not held by an unexpired entry, and afterwards no expired
        entry is left. */
    method Use(key: string, ttl: nat, now: nat) returns (ok: bool)
      modifies this
      ensures (ok, items) == Used(old(items), key, ttl, now)
      ensures ok <==> Trim(key) != "" && !(key in old(items) && now < old(items)[key])
      ensures Trim(key) != "" ==> forall k :: k in items ==> now <= items[k]
      ensures ok ==> key in items && items[key] == now + ttl
      ensures Trim(key) == "" ==> items == old(items)
      ensures Trim(key) != "" ==> forall k :: k != key || !ok ==>
        (k in items <==> k in old(items) && now <= old(items)[k]) && (k in items ==> items[k] == old(items)[k])
    {
      if Trim(key) == "" {
        return false;
      }
      Purge(now);
      if key in items && now < items[key] {
        return false;
      }
      items := items[key := now + ttl];
      ok := true;
    }

    method Purge(now: nat)
      modifies this
      ensures items == Purged(old(items), now)
    {
      var rest := items.Keys;
      while rest != {}
        invariant rest <= old(items).Keys
        invariant forall k :: k in items <==> k in old(items) && (k in rest || now <= old(items)[k])
        invariant forall k :: k in items ==> items[k] == old(items)[k]
        decreases |rest|
      {
        var k :| k in rest;
        rest := rest - {k};
        if now > items[k] {
          items := items - {k};
        }
      }
    }
  }

  // ---- requests ----

  /** A correctly signed request: `checked` is the clock reading for the skew check, `read` the one in
      Use, `locked` the moment its turn in Use comes. */
  datatype Request = Request(keyId: string, nonce: string, timestamp: int, checked: nat, read: nat, locked: nat)

  function NonceKey(r: Request): string {
    r.keyId + ":" + r.nonce
  }

  /** The checks before the nonce store is asked. */
  predicate InWindow(c: Config, r: Request) {
    && r.keyId != "" && (c.requireNonce ==> r.nonce != "")
    && 0 - c.maxClockSkew <= r.checked - r.timestamp <= c.maxClockSkew
  }

  function Handled(c: Config, items: map<string, nat>, r: Request): (bool, map<string, nat>) {
    if !InWindow(c, r) then (false, items)
    else if !c.requireNonce then (true, items)
    else Used(items, NonceKey(r), c.nonceTTL, r.read)
  }

  /** The middleware around one request, from the skew check on. */
  method Handle(store: InMemoryNonceStore, c: Config, r: Request) returns (accepted: bool)
    modifies store
    ensures (accepted, store.items) == Handled(c, old(store.items), r)
    ensures accepted <==>
      && r.keyId != "" && (c.requireNonce ==> r.nonce != "")
      && r.timestamp - c.maxClockSkew <= r.checked <= r.timestamp + c.maxClockSkew
      && (c.requireNonce ==> !(r.keyId + ":" + r.nonce in old(store.items) && r.read < old(store.items)[r.keyId + ":" + r.nonce]))
  {
    KeyIsNotBlank(r);
    if r.keyId == "" || (c.requireNonce && r.nonce == "") {
      return false;
    }
    var skew := r.checked - r.timestamp;
    if skew > c.maxClockSkew || skew < 0 - c.maxClockSkew {
      return false;
    }
    if !c.requireNonce {
      return true;
    }
    accepted := store.Use(r.keyId + ":" + r.nonce, c.nonceTTL, r.read);
  }

  // ---- runs: requests in the order in which they get the mutex ----

  /** `lag` bounds the time from a request's skew check to its turn in Use. */
  ghost predicate IsRun(lag: nat, rs: seq<Request>) {
    && (forall i :: 0 <= i < |rs| ==> rs[i].checked <= rs[i].read <= rs[i].locked <= rs[i].checked + lag)
    && (forall i, j :: 0 <= i < j < |rs| ==> rs[i].locked <= rs[j].locked)
  }

  function StoreAfter(c: Config, rs: seq<Request>): map<string, nat> {
    if rs == [] then map[] else Handled(c, StoreAfter(c, rs[..|rs| - 1]), rs[|rs| - 1]).1
  }

  predicate Accepted(c: Config, rs: seq<Request>, i: nat)
    requires i < |rs|
  {
    Handled(c, StoreAfter(c, rs[..i]), rs[i]).0
  }

  predicate SameRequest(a: Request, b: Request) {
    a.keyId == b.keyId && a.nonce == b.nonce && a.timestamp == b.timestamp
  }

  lemma KeyIsNotBlank(r: Request)
    ensures Trim(NonceKey(r)) != ""
  {
    assert NonceKey(r)[|r.keyId|] == ':';
    TrimKeepsSolid(NonceKey(r), ':');
  }

  lemma StoreStep(c: Config, rs: seq<Request>, n: nat)
    requires n < |rs|
    ensures StoreAfter(c, rs[..n + 1]) == Handled(c, StoreAfter(c, rs[..n]), rs[n]).1
  {
    assert rs[..n + 1][..n] == rs[..n];
  }

  /** While no reading is past the expiry, the entry stays, and it can only move later. */
  lemma EntrySurvives(c: Config, items: map<string, nat>, r: Request, key: string, expiry: nat)
    requires key in items && items[key] >= expiry && (InWindow(c, r) ==> r.read <= expiry)
    ensures var after := Handled(c, items, r).1; key in after && after[key] >= expiry
  {
  }

  lemma {:induction false} EntryHeld(c: Config, rs: seq<Request>, i: nat, k: nat)
    requires c.requireNonce && i < k <= |rs| && Accepted(c, rs, i)
    requires forall m :: i < m < k && InWindow(c, rs[m]) ==> rs[m].read <= rs[i].read + c.nonceTTL
    ensures NonceKey(rs[i]) in StoreAfter(c, rs[..k]) && StoreAfter(c, rs[..k])[NonceKey(rs[i])] >= rs[i].read + c.nonceTTL
  {
    StoreStep(c, rs, k - 1);
    if k > i + 1 {
      EntryHeld(c, rs, i, k - 1);
      EntrySurvives(c, StoreAfter(c, rs[..k - 1]), rs[k - 1], NonceKey(rs[i]), rs[i].read + c.nonceTTL);
    }
  }

  /** Request j keeps request i from being accepted: it was accepted under the same key, its entry has not
      expired for i, and nothing in between purged it. */
  predicate Blocks(c: Config, rs: seq<Request>, j: int, i: int)
    requires 0 <= j < i < |rs|
  {
    && Accepted(c, rs, j) && NonceKey(rs[j]) == NonceKey(rs[i]) && rs[i].read < rs[j].read + c.nonceTTL
    && Unpurged(c, rs, j, i)
  }

  /** No request after j and before n had a clock reading past the expiry of j's entry. */
  predicate Unpurged(c: Config, rs: seq<Request>, j: int, n: int)
    requires 0 <= j < n <= |rs|
  {
    forall m :: j < m < n && InWindow(c, rs[m]) ==> rs[m].read <= rs[j].read + c.nonceTTL
  }

  lemma UnpurgedMore(c: Config, rs: seq<Request>, j: int, n: int)
    requires 0 <= j < n < |rs| && Unpurged(c, rs, j, n) && (InWindow(c, rs[n]) ==> rs[n].read <= rs[j].read + c.nonceTTL)
    ensures Unpurged(c, rs, j, n + 1)
  {
  }

  /** Whatever the store holds was put there by an accepted request and has not been purged since. */
  lemma {:induction false} EntryOrigin(c: Config, rs: seq<Request>, n: nat, key: string) returns (j: nat)
    requires c.requireNonce && n <= |rs| && key in StoreAfter(c, rs[..n])
    ensures j < n && Accepted(c, rs, j) && NonceKey(rs[j]) == key
    ensures StoreAfter(c, rs[..n])[key] == rs[j].read + c.nonceTTL && Unpurged(c, rs, j, n)
  {
    StoreStep(c, rs, n - 1);
    if Accepted(c, rs, n - 1) && NonceKey(rs[n - 1]) == key {
      j := n - 1;
    } else {
      HeldBefore(c, StoreAfter(c, rs[..n - 1]), rs[n - 1], key);
      j := EntryOrigin(c, rs, n - 1, key);
      UnpurgedMore(c, rs, j, n - 1);
    }
  }

  /** An entry that a request finds and did not put there itself has not expired for it. */
  lemma HeldBefore(c: Config, items: map<string, nat>, r: Request, key: string)
    requires c.requireNonce && key in Handled(c, items, r).1 && !(Handled(c, items, r).0 && NonceKey(r) == key)
    ensures key in items && Handled(c, items, r).1[key] == items[key] && (InWindow(c, r) ==> r.read <= items[key])
  {
    KeyIsNotBlank(r);
  }

  /** In every run a request is accepted exactly when it is in the window and no earlier one blocks it. */
  lemma AcceptedExactly(c: Config, rs: seq<Request>, i: nat)
    requires c.requireNonce && i < |rs|
    ensures Accepted(c, rs, i) <==> InWindow(c, rs[i]) && !exists j :: 0 <= j < i && Blocks(c, rs, j, i)
  {
    var key, items := NonceKey(rs[i]), StoreAfter(c, rs[..i]);
    KeyIsNotBlank(rs[i]);
    if InWindow(c, rs[i]) && !Accepted(c, rs, i) {
      var j := EntryOrigin(c, rs, i, key);
      assert Blocks(c, rs, j, i);
    }
    if j :| 0 <= j < i && Blocks(c, rs, j, i) {
      EntryHeld(c, rs, j, i);
    }
  }

  /** Keys without a colon in the key id tell all requests apart. */
  lemma NonceKeyExactly(a: Request, b: Request)
    requires ':' !in a.keyId && ':' !in b.keyId
    ensures NonceKey(a) == NonceKey(b) <==> a.keyId == b.keyId && a.nonce == b.nonce
  {
    if NonceKey(a) == NonceKey(b) {
      assert a.keyId + [':'] + a.nonce == NonceKey(a) && b.keyId + [':'] + b.nonce == NonceKey(b);
      SplitFirst(a.keyId, a.nonce, b.keyId, b.nonce, ':');
    }
  }

  /** When nonces are required and live longer than twice the skew plus the lag, no request is accepted a second time,
      whatever is purged in between. */
  lemma AcceptedAtMostOnce(c: Config, lag: nat, rs: seq<Request>, i: nat, j: nat)
    requires c.requireNonce && c.nonceTTL > 2 * c.maxClockSkew + lag
    requires IsRun(lag, rs) && i < j < |rs| && SameRequest(rs[i], rs[j])
    ensures !(Accepted(c, rs, i) && Accepted(c, rs, j))
  {
    if Accepted(c, rs, i) && InWindow(c, rs[j]) {
      assert rs[j].locked < rs[i].read + c.nonceTTL;
      forall m | i < m < j ensures rs[m].read <= rs[i].read + c.nonceTTL {
        assert rs[m].locked <= rs[j].locked;
      }
      EntryHeld(c, rs, i, j);
    }
  }

  ghost predicate ReplayFree(c: Config, lag: nat) {
    forall rs, i: nat, j: nat ::
      IsRun(lag, rs) && i < j < |rs| && SameRequest(rs[i], rs[j]) ==> !(Accepted(c, rs, i) && Accepted(c, rs, j))
  }

  /** The two requests that get through when the lifetime is too short: the first as early, the second
      as late as the window allows. */
  function Replay(c: Config, lag: nat): seq<Request> {
    var s, late := c.maxClockSkew, 2 * c.maxClockSkew + lag;
    [Request("k", "n", s, 0, 0, 0), Request("k", "n", s, 2 * s, late, late)]
  }

  lemma ReplaySucceeds(c: Config, lag: nat)
    requires !c.requireNonce || c.nonceTTL <= 2 * c.maxClockSkew + lag
    ensures var rs := Replay(c, lag);
      IsRun(lag, rs) && SameRequest(rs[0], rs[1]) && Accepted(c, rs, 0) && Accepted(c, rs, 1)
  {
    var rs := Replay(c, lag);
    KeyIsNotBlank(rs[0]);
    KeyIsNotBlank(rs[1]);
    assert rs[..0] == [];
    StoreStep(c, rs, 0);
  }

  /** The exact condition on the configuration. With one clock reading per request the lag is 0. */
  lemma ReplayFreeExactly(c: Config, lag: nat)
    ensures ReplayFree(c, lag) <==> c.requireNonce && c.nonceTTL > 2 * c.maxClockSkew + lag
  {
    if c.requireNonce && c.nonceTTL > 2 * c.maxClockSkew + lag {
      forall rs, i: nat, j: nat | IsRun(lag, rs) && i < j < |rs| && SameRequest(rs[i], rs[j])
        ensures !(Accepted(c, rs, i) && Accepted(c, rs, j))
      {
        AcceptedAtMostOnce(c, lag, rs, i, j);
      }
    } else {
      ReplaySucceeds(c, lag);
      var rs := Replay(c, lag);
      assert Accepted(c, rs, 0) && Accepted(c, rs, 1);
    }
  }

  /** The shipped defaults sit on the boundary and let a replay through. */
  lemma DefaultsAllowReplay(lag: nat)
    ensures !ReplayFree(DEFAULT, lag)
  {
    ReplayFreeExactly(DEFAULT, lag);
  }
}
