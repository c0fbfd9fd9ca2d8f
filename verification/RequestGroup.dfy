/** The request group in its in-place form: the two mutex sections of Do, InFlight, and Do itself up
    to the point where a follower would block. The interleavings
    of these sections are the steps of `SingleFlight`. */
module RequestGroups {
  import opened Text
  import opened SingleFlight

  /** The shared call; `done` stands for the released wait group. */
  class RequestCall {
    const id: nat
    var entry: Option<Entry>
    var failed: bool
    var done: bool

    constructor (id: nat)
      ensures this.id == id && !done && !failed && entry == None
    {
      this.id := id;
      entry, failed, done := None, false, false;
    }
  }

  class RequestGroup {
    var m: map<string, RequestCall>

    constructor ()
      ensures Valid() && m == map[]
    {
      m := map[];
    }

    /** No call is shared between two keys. */
    ghost predicate Valid()
      reads this
    {
      forall j, k :: j in m && k in m && m[j] == m[k] ==> j == k
    }

    /** The group in the world of `SingleFlight`. */
    ghost predicate Shows(w: World)
      reads this
    {
      w.group == map k | k in m :: m[k].id
    }

    method InFlight(key: string) returns (yes: bool)
      ensures yes <==> key in m
    {
      yes := key in m;
    }

    /** The first mutex section of Do: the caller leads exactly when no call was there. */
    method Begin(key: string, id: nat) returns (call: RequestCall, leader: bool)
      requires Valid()
      modifies this`m
      ensures Valid()
      ensures leader <==> key !in old(m)
      ensures leader ==> fresh(call) && call.id == id && !call.done && m == old(m)[key := call]
      ensures !leader ==> m == old(m) && call == m[key]
      ensures forall c: Config, w: World, r: nat ::
        old(Shows(w)) && r in w.requests && w.requests[r] == Entering(key) && id !in w.calls ==> Shows(Step(c, w, Enter(r, id)))
    {
      if key in m {
        return m[key], false;
      }
      call := new RequestCall(id);
      m := m[key := call];
      leader := true;
    }

    /** What a leader does once its function has returned: publish, release the followers, delete. */
    method Finish(key: string, call: RequestCall, entry: Option<Entry>, failed: bool)
      requires Valid() && key in m && m[key] == call && !call.done
      modifies this`m, call
      ensures Valid() && m == old(m) - {key}
      ensures call.done && call.entry == entry && call.failed == failed
      ensures call !in m.Values
      ensures forall c: Config, w: World, r: nat ::
        old(Shows(w)) && r in w.requests && w.requests[r] == Leaving(key, call.id) ==> Shows(Step(c, w, Delete(r)))
    {
      call.entry, call.failed := entry, failed;
      call.done := true;
      m := m - {key};
    }

    /** Do around a function that returns (`entry`, `failed`): a leader gets its own result, a follower
        that of the call it found, unless that call is not signalled yet and the follower has to wait.
        The group ends as it began. */
    method Do(key: string, id: nat, entry: Option<Entry>, failed: bool) returns (result: Option<(Option<Entry>, bool)>, shared: bool)
      requires Valid()
      modifies this`m
      ensures Valid() && m == old(m)
      ensures shared <==> key in m
      ensures !shared ==> result == Some((entry, failed))
      ensures shared ==> result == if m[key].done then Some((m[key].entry, m[key].failed)) else None
    {
      var call, leader := Begin(key, id);
      if !leader {
        return if call.done then Some((call.entry, call.failed)) else None, true;
      }
      Finish(key, call, entry, failed);
      result, shared := Some((call.entry, call.failed)), false;
    }
  }
}
