/** The circuit breaker: its mutex sections as functions on a record, all runs of overlapping Execute
    calls and Reset over them, and the class that updates the fields in place. */
module Breaker {
  datatype State = Closed | Open | HalfOpen

  /** `lastFail` is the time of the latest recorded failure, 0 before the first one. */
  datatype Breaker = Breaker(state: State, failures: int, successes: int, lastFail: nat)

  datatype Config = Config(maxFailures: int, timeout: int)

  function New(): Breaker {
    Breaker(Closed, 0, 0, 0)
  }

  /** The open breaker still holds calls back at time `now`. */
  predicate Cooling(c: Config, b: Breaker, now: nat) {
    b.state == Open && now - b.lastFail <= c.timeout
  }

  function Permitted(c: Config, b: Breaker, now: nat): (bool, Breaker) {
    match b.state
    case Closed => (true, b)
    case HalfOpen => (true, b)
    case Open => if now - b.lastFail > c.timeout then (true, b.(state := HalfOpen, successes := 0)) else (false, b)
  }

  function Failed(c: Config, b: Breaker, now: nat): Breaker {
    if b.state == HalfOpen then Breaker(Open, 0, 0, now)
    else
      var n := b.failures + 1;
      b.(lastFail := now, failures := n, state := if n >= c.maxFailures then Open else b.state)
  }

  function Succeeded(b: Breaker): Breaker {
    match b.state
    case HalfOpen => b.(state := Closed, failures := 0, successes := 0)
    case Closed => b.(failures := 0)
    case Open => b
  }

  function Cleared(b: Breaker): Breaker {
    b.(state := Closed, failures := 0, successes := 0)
  }

  // ---- runs ----

  /** The mutex sections. Ask opens an Execute call; Fail and Succeed close one that was let through. */
  datatype Event = Ask(at: nat) | Fail(at: nat) | Succeed | Reset

  /** `inFlight` counts the calls let through and not yet recorded; `clock` is the latest time read. */
  datatype World = World(breaker: Breaker, inFlight: nat, clock: nat)

  predicate Enabled(w: World, e: Event) {
    match e
    case Ask(at) => w.clock <= at
    case Fail(at) => w.clock <= at && w.inFlight > 0
    case Succeed => w.inFlight > 0
    case Reset => true
  }

  function Step(c: Config, w: World, e: Event): World
    requires Enabled(w, e)
  {
    match e
    case Ask(at) =>
      var p := Permitted(c, w.breaker, at);
      World(p.1, w.inFlight + (if p.0 then 1 else 0), at)
    case Fail(at) => World(Failed(c, w.breaker, at), w.inFlight - 1, at)
    case Succeed => World(Succeeded(w.breaker), w.inFlight - 1, w.clock)
    case Reset => World(Cleared(w.breaker), w.inFlight, w.clock)
  }

  ghost predicate IsRun(c: Config, ws: seq<World>, es: seq<Event>) {
    && |ws| == |es| + 1 && ws[0] == World(New(), 0, 0)
    && forall i :: 0 <= i < |es| ==> Enabled(ws[i], es[i]) && ws[i + 1] == Step(c, ws[i], es[i])
  }

  // ---- what the history alone says ----

  /** The failures recorded after the last success or reset. */
  function FailuresInARow(es: seq<Event>): nat {
    if es == [] then 0
    else
      var front, last := es[..|es| - 1], es[|es| - 1];
      match last
      case Fail(_) => FailuresInARow(front) + 1
      case Ask(_) => FailuresInARow(front)
      case _ => 0
  }

  /** The time of the latest recorded failure, late ones included. */
  function LatestFailure(es: seq<Event>): nat {
    if es == [] then 0
    else if es[|es| - 1].Fail? then es[|es| - 1].at
    else LatestFailure(es[..|es| - 1])
  }

  ghost predicate Agrees(c: Config, b: Breaker, history: seq<Event>) {
    && b.lastFail == LatestFailure(history)
    && b.successes == 0 && b.failures >= 0
    && (b.state == Closed ==> b.failures == FailuresInARow(history) < c.maxFailures)
  }

  lemma AgreesStep(c: Config, w: World, e: Event, history: seq<Event>)
    requires c.maxFailures >= 1 && Enabled(w, e) && Agrees(c, w.breaker, history)
    ensures Agrees(c, Step(c, w, e).breaker, history + [e])
  {
    assert (history + [e])[..|history|] == history;
  }

  lemma {:induction false} HistoryAgrees(c: Config, ws: seq<World>, es: seq<Event>, i: nat)
    requires c.maxFailures >= 1 && IsRun(c, ws, es) && i < |ws|
    ensures Agrees(c, ws[i].breaker, es[..i])
  {
    if i > 0 {
      HistoryAgrees(c, ws, es, i - 1);
      assert es[..i] == es[..i - 1] + [es[i - 1]];
      AgreesStep(c, ws[i - 1], es[i - 1], es[..i - 1]);
    }
  }

  /** While closed, the counter is the number of failures since the last success or reset, and it is
      below the limit. */
  lemma ClosedCountsFailures(c: Config, ws: seq<World>, es: seq<Event>, i: nat)
    requires c.maxFailures >= 1 && IsRun(c, ws, es) && i < |ws| && ws[i].breaker.state == Closed
    ensures ws[i].breaker.failures == FailuresInARow(es[..i]) < c.maxFailures
  {
    HistoryAgrees(c, ws, es, i);
  }

  /** A closed breaker opens exactly at the failure that completes a row of `maxFailures`. */
  lemma OpensExactlyAtLimit(c: Config, ws: seq<World>, es: seq<Event>, i: nat)
    requires c.maxFailures >= 1 && IsRun(c, ws, es) && i < |es| && ws[i].breaker.state == Closed
    ensures ws[i + 1].breaker.state != Closed <==> es[i].Fail? && FailuresInARow(es[..i + 1]) == c.maxFailures
    ensures ws[i + 1].breaker.state != HalfOpen
  {
    HistoryAgrees(c, ws, es, i);
    assert es[..i + 1][..i] == es[..i];
  }

  /** An open breaker is left exactly by Reset, or by a call more than `timeout` after the latest
      recorded failure. */
  lemma OpenLeftExactly(c: Config, ws: seq<World>, es: seq<Event>, i: nat)
    requires c.maxFailures >= 1 && IsRun(c, ws, es) && i < |es| && ws[i].breaker.state == Open
    ensures ws[i + 1].breaker.state != Open <==>
              es[i].Reset? || (es[i].Ask? && es[i].at - LatestFailure(es[..i]) > c.timeout)
  {
    HistoryAgrees(c, ws, es, i);
  }

  /** A half-open breaker opens at the next recorded failure and closes at the next recorded success or
      reset; further calls change nothing. */
  lemma HalfOpenLeftExactly(c: Config, ws: seq<World>, es: seq<Event>, i: nat)
    requires IsRun(c, ws, es) && i < |es| && ws[i].breaker.state == HalfOpen
    ensures ws[i + 1].breaker.state == Open <==> es[i].Fail?
    ensures ws[i + 1].breaker.state == Closed <==> es[i].Succeed? || es[i].Reset?
    ensures es[i].Ask? ==> ws[i + 1].breaker == ws[i].breaker && ws[i + 1].inFlight == ws[i].inFlight + 1
  {
    assert ws[i + 1] == Step(c, ws[i], es[i]);
  }

  /** The calls among the first n events that were let through, and those that were recorded. */
  function Passed(c: Config, ws: seq<World>, es: seq<Event>, n: nat): nat
    requires n <= |es| < |ws|
  {
    if n == 0 then 0
    else Passed(c, ws, es, n - 1) + (if es[n - 1].Ask? && !Cooling(c, ws[n - 1].breaker, es[n - 1].at) then 1 else 0)
  }

  function Recorded(es: seq<Event>, n: nat): nat
    requires n <= |es|
  {
    if n == 0 then 0 else Recorded(es, n - 1) + (if es[n - 1].Fail? || es[n - 1].Succeed? then 1 else 0)
  }

  /** The calls in flight are those that were let through and not yet recorded. */
  lemma {:induction false} InFlightExactly(c: Config, ws: seq<World>, es: seq<Event>, n: nat)
    requires IsRun(c, ws, es) && n <= |es|
    ensures ws[n].inFlight + Recorded(es, n) == Passed(c, ws, es, n)
  {
    if n > 0 {
      InFlightExactly(c, ws, es, n - 1);
      assert ws[n] == Step(c, ws[n - 1], es[n - 1]);
    }
  }

  lemma LatestFailureGrows(c: Config, ws: seq<World>, es: seq<Event>, i: nat)
    requires c.maxFailures >= 1 && IsRun(c, ws, es) && i < |es|
    ensures LatestFailure(es[..i]) <= LatestFailure(es[..i + 1])
    ensures LatestFailure(es[..i]) <= ws[i].clock
  {
    assert es[..i + 1][..i] == es[..i];
    LatestFailureBeforeClock(c, ws, es, i);
  }

  lemma {:induction false} LatestFailureBeforeClock(c: Config, ws: seq<World>, es: seq<Event>, i: nat)
    requires IsRun(c, ws, es) && i < |ws|
    ensures LatestFailure(es[..i]) <= ws[i].clock
  {
    if i > 0 {
      LatestFailureBeforeClock(c, ws, es, i - 1);
      assert es[..i][..i - 1] == es[..i - 1];
    }
  }

  /** From an open breaker on, as long as nobody resets it, every call up to `timeout` after the
      failure is turned away, whatever calls are still in flight and however they end. */
  lemma {:induction false} NothingPassesWhileCooling(c: Config, ws: seq<World>, es: seq<Event>, i: nat, j: nat)
    requires c.maxFailures >= 1 && IsRun(c, ws, es) && i <= j < |es|
    requires ws[i].breaker.state == Open && (forall k :: i <= k < j ==> !es[k].Reset?)
    requires es[j].Ask? && es[j].at <= LatestFailure(es[..i]) + c.timeout
    ensures ws[j].breaker.state == Open && ws[j + 1] == ws[j].(clock := es[j].at)
  {
    StaysOpen(c, ws, es, i, j, es[j].at, LatestFailure(es[..i]));
    HistoryAgrees(c, ws, es, j);
    assert Step(c, ws[j], es[j]) == ws[j + 1];
  }

  lemma {:induction false} StaysOpen(c: Config, ws: seq<World>, es: seq<Event>, i: nat, j: nat, until: nat, failure: nat)
    requires c.maxFailures >= 1 && IsRun(c, ws, es) && i <= j < |ws|
    requires ws[i].breaker.state == Open && (forall k :: i <= k < j ==> !es[k].Reset?)
    requires failure <= LatestFailure(es[..i]) && ws[j].clock <= until <= failure + c.timeout
    ensures ws[j].breaker.state == Open && failure <= LatestFailure(es[..j])
    decreases j
  {
    if i < j {
      var k := j - 1;
      ClockMoves(c, ws, es, k);
      StaysOpen(c, ws, es, i, k, until, failure);
      assert !es[k].Reset?;
      StillOpen(c, ws, es, k);
    }
  }

  lemma StillOpen(c: Config, ws: seq<World>, es: seq<Event>, j: nat)
    requires c.maxFailures >= 1 && IsRun(c, ws, es) && j < |es| && ws[j].breaker.state == Open && !es[j].Reset?
    requires ws[j + 1].clock <= LatestFailure(es[..j]) + c.timeout
    ensures ws[j + 1].breaker.state == Open && LatestFailure(es[..j]) <= LatestFailure(es[..j + 1])
  {
    ClockMoves(c, ws, es, j);
    OpenLeftExactly(c, ws, es, j);
    LatestFailureGrows(c, ws, es, j);
  }

  lemma ClockMoves(c: Config, ws: seq<World>, es: seq<Event>, i: nat)
    requires IsRun(c, ws, es) && i < |es|
    ensures ws[i].clock <= ws[i + 1].clock && (es[i].Ask? ==> ws[i + 1].clock == es[i].at)
  {
    assert Step(c, ws[i], es[i]) == ws[i + 1];
  }

  // ---- the half-open state lets every call through ----

  lemma Extend(c: Config, ws: seq<World>, es: seq<Event>, e: Event)
    requires IsRun(c, ws, es) && Enabled(ws[|es|], e)
    ensures IsRun(c, ws + [Step(c, ws[|es|], e)], es + [e])
  {
  }

  /** Calls that fail one after another open any breaker. */
  lemma RunToOpen(c: Config) returns (ws: seq<World>, es: seq<Event>)
    ensures IsRun(c, ws, es) && ws[|es|].breaker.state == Open
  {
    ws, es := [World(New(), 0, 0)], [];
    while ws[|es|].breaker.state == Closed
      invariant IsRun(c, ws, es) && ws[|es|].breaker.state != HalfOpen
      decreases ws[|es|].breaker.state == Closed, c.maxFailures - ws[|es|].breaker.failures
    {
      var now := ws[|es|].clock;
      Extend(c, ws, es, Ask(now));
      ws, es := ws + [Step(c, ws[|es|], Ask(now))], es + [Ask(now)];
      Extend(c, ws, es, Fail(now));
      ws, es := ws + [Step(c, ws[|es|], Fail(now))], es + [Fail(now)];
    }
  }

  /** Whatever the settings, for every n some run is half-open with at least n calls in flight. */
  lemma HalfOpenIsUnlimited(c: Config, n: nat) returns (ws: seq<World>, es: seq<Event>)
    ensures IsRun(c, ws, es) && ws[|es|].breaker.state == HalfOpen && ws[|es|].inFlight >= n
  {
    ws, es := RunToOpen(c);
    var wait := if c.timeout < 0 then 0 else c.timeout + 1;
    var late := ws[|es|].clock + ws[|es|].breaker.lastFail + wait;
    Extend(c, ws, es, Ask(late));
    ws, es := ws + [Step(c, ws[|es|], Ask(late))], es + [Ask(late)];
    while ws[|es|].inFlight < n
      invariant IsRun(c, ws, es) && ws[|es|].breaker.state == HalfOpen
    {
      var now := ws[|es|].clock;
      Extend(c, ws, es, Ask(now));
      ws, es := ws + [Step(c, ws[|es|], Ask(now))], es + [Ask(now)];
    }
  }

  // ---- the breaker itself ----

  datatype ExecuteResult = Refused | Succeeds | Fails

  function Outcome(c: Config, b: Breaker, asked: nat, succeeds: bool): ExecuteResult {
    if Cooling(c, b, asked) then Refused else if succeeds then Succeeds else Fails
  }

  /** The breaker after an Execute call during which no other call came in. */
  function After(c: Config, b: Breaker, asked: nat, succeeds: bool, ended: nat): Breaker {
    var (ok, trial) := Permitted(c, b, asked);
    if !ok then b else if succeeds then Succeeded(trial) else Failed(c, trial, ended)
  }

  class CircuitBreaker {
    const maxFailures: int
    const timeout: int
    var state: State
    var failures: int
    var successes: int
    var lastFailTime: nat

    constructor (maxFailures: int, timeout: int)
      ensures View() == New() && Settings() == Config(maxFailures, timeout)
    {
      this.maxFailures, this.timeout := maxFailures, timeout;
      state, failures, successes, lastFailTime := Closed, 0, 0, 0;
    }

    ghost function View(): Breaker
      reads this
    {
      Breaker(state, failures, successes, lastFailTime)
    }

    ghost function Settings(): Config {
      Config(maxFailures, timeout)
    }

    method CanExecute(now: nat) returns (ok: bool)
      modifies this
      ensures (ok, View()) == Permitted(Settings(), old(View()), now)
      ensures ok <==> !old(Cooling(Settings(), View(), now))
    {
      match state
      case Closed => ok := true;
      case Open =>
        ok := now - lastFailTime > timeout;
        if ok {
          state, successes := HalfOpen, 0;
        }
      case HalfOpen => ok := true;
    }

    /** Execute around a function that ends at `ended` with or without an error. A refused call changes
        nothing; a success always leaves the breaker closed with a clean counter. */
    method Execute(asked: nat, succeeds: bool, ended: nat) returns (r: ExecuteResult)
      modifies this
      ensures r == Outcome(Settings(), old(View()), asked, succeeds)
      ensures View() == After(Settings(), old(View()), asked, succeeds, ended)
      ensures r.Refused? <==> old(Cooling(Settings(), View(), asked))
      ensures r.Refused? ==> View() == old(View())
      ensures !r.Refused? ==> (r.Succeeds? <==> succeeds)
      ensures r.Succeeds? ==> state == Closed && failures == 0
      ensures r.Fails? ==> state != HalfOpen && lastFailTime == ended
    {
      var ok := CanExecute(asked);
      if !ok {
        return Refused;
      }
      if !succeeds {
        RecordFailure(ended);
        return Fails;
      }
      RecordSuccess();
      r := Succeeds;
    }

    method RecordFailure(now: nat)
      modifies this
      ensures View() == Failed(Settings(), old(View()), now)
    {
      lastFailTime := now;
      if state == HalfOpen {
        state, failures, successes := Open, 0, 0;
        return;
      }
      failures := failures + 1;
      if failures >= maxFailures {
        state := Open;
      }
    }

    method RecordSuccess()
      modifies this
      ensures View() == Succeeded(old(View()))
    {
      match state
      case HalfOpen =>
        successes := successes + 1;
        state, failures, successes := Closed, 0, 0;
      case Closed => failures := 0;
      case Open =>
    }

    method Reset()
      modifies this
      ensures View() == Cleared(old(View()))
    {
      state, failures, successes := Closed, 0, 0;
    }
  }
}
