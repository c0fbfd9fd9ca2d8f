/** The two lock providers as objects that update their store and the caller's lease in place. The
    clock readings a call takes and its random token are parameters; a full key is injective in the
    trimmed key, so the store is indexed by the latter. */
module LockProviders {
  import opened Text
  import opened TtlLock

  datatype Error = InvalidArgument | Conflict
  datatype Result<T> = Ok(value: T) | Err(error: Error)

  class LockLease {
    const key: string
    const token: string
    var expireAt: nat

    constructor (key: string, token: string, expireAt: nat)
      ensures this.key == key && this.token == token && this.expireAt == expireAt
    {
      this.key, this.token, this.expireAt := key, token, expireAt;
    }
  }

  class LockProvider {
    const form: Form
    var store: Store

    constructor (form: Form)
      ensures this.form == form && store == map[]
    {
      this.form := form;
      store := map[];
    }

    /** Acquire runs at `now` and reads the clock again at `after`. The stored expiry is `now + ttl`;
        the lease of the Redis provider reports `after + ttl`, which may be later. */
    method Acquire(key: string, ttl: int, token: string, now: nat, after: nat) returns (r: Result<LockLease?>)
      requires now <= after
      modifies this`store
      ensures Trim(key) == "" || ttl <= 0 ==> r == Err(InvalidArgument) && store == old(store)
      ensures Trim(key) != "" && ttl > 0 ==>
        var e := Event.Acquire(Trim(key), token, ttl);
        var (s, ok) := Perform(form, State(old(store), now), e);
        && r.Ok? && store == s.store && (r.value != null <==> ok)
        && (ok <==> Trim(key) !in old(store) || old(store)[Trim(key)].expireAt <= now)
        && store == (if ok then old(store)[Trim(key) := Entry(token, now + ttl)] else old(store))
        && (ok ==>
              && fresh(r.value) && r.value.key == Trim(key) && r.value.token == token
              && store[Trim(key)] == Entry(token, now + ttl)
              && now + ttl <= r.value.expireAt == (if form.Redis? then after else now) + ttl)
    {
      var k := Trim(key);
      if k == "" || ttl <= 0 {
        return Err(InvalidArgument);
      }
      var acquired: bool;
      if form.Redis? {
        acquired := !(k in store && now < store[k].expireAt);
      } else {
        acquired := k !in store || store[k].expireAt <= now;
      }
      if !acquired {
        return Ok(null);
      }
      store := store[k := Entry(token, now + ttl)];
      var lease := new LockLease(k, token, (if form.Redis? then after else now) + ttl);
      r := Ok(lease);
    }

    method Renew(lease: LockLease, ttl: int, now: nat, after: nat) returns (r: Result<()>)
      requires now <= after
      modifies this`store, lease`expireAt
      ensures var (k, t) := (Trim(lease.key), Trim(lease.token));
              if ttl <= 0 || k == "" || t == "" then
                r == Err(InvalidArgument) && store == old(store) && lease.expireAt == old(lease.expireAt)
              else
                var (s, ok) := Perform(form, State(old(store), now), Event.Renew(k, t, ttl));
                && store == s.store && r == (if ok then Ok(()) else Err(Conflict))
                && (ok <==> k in old(store) && old(store)[k].token == t && now < old(store)[k].expireAt)
                && store == (if ok then old(store)[k := Entry(t, now + ttl)] else old(store))
                && lease.expireAt == if ok then after + ttl else old(lease.expireAt)
    {
      var k, t := Trim(lease.key), Trim(lease.token);
      if ttl <= 0 || k == "" || t == "" {
        return Err(InvalidArgument);
      }
      if k !in store || store[k].token != t || store[k].expireAt <= now {
        return Err(Conflict);
      }
      store := store[k := Entry(t, now + ttl)];
      lease.expireAt := after + ttl;
      r := Ok(());
    }

    method Release(lease: LockLease, now: nat) returns (r: Result<()>)
      modifies this`store
      ensures var (k, t) := (Trim(lease.key), Trim(lease.token));
              if k == "" || t == "" then r == Err(InvalidArgument) && store == old(store)
              else
                var (s, ok) := Perform(form, State(old(store), now), Event.Release(k, t));
                && store == s.store && r == (if ok then Ok(()) else Err(Conflict))
                && (ok <==> k in old(store) && old(store)[k].token == t && (form.Postgres? || now < old(store)[k].expireAt))
                && store == (if ok then old(store) - {k} else old(store))
    {
      var k, t := Trim(lease.key), Trim(lease.token);
      if k == "" || t == "" {
        return Err(InvalidArgument);
      }
      if k !in store || store[k].token != t || (form.Redis? && store[k].expireAt <= now) {
        return Err(Conflict);
      }
      store := store - {k};
      r := Ok(());
    }
  }
}
