/** All runs of the lease-aware backend over a transport subscription. A transport callback puts a
    delivery into the channel and waits for its result; clients receive deliveries, register leases
    under the mutex, pop them for Ack, Nack or MoveToDLQ, and complete the delivery afterwards; timers
    and Close take leases away under the same mutex. Every mutex section, channel operation, enqueue
    and completion is one step, and any number of clients interleave. */
module RuntimeRuns {
  datatype Outcome = Success | Failed

  datatype Action = AckAction | NackAction | DlqAction

  /** What a goroutine holds between two of its steps. */
  datatype Client =
    | Receiving(delivery: nat, token: string)
    | Popped(delivery: nat, action: Action)
    | Copied(delivery: nat)
    | Expiring(delivery: nat)
    | Closing(deliveries: set<nat>)

  datatype Callback = Waiting | ReturnedWith(outcome: Outcome)

  /** `results` lists the calls of complete per delivery; `acked` and `copied` record the deliveries
      whose Ack took effect and whose retry or dead-letter copy was enqueued. */
  datatype World = World(
    channel: set<nat>, leases: map<string, nat>, clients: map<nat, Client>, closed: bool, tokens: set<string>,
    callbacks: map<nat, Callback>, results: map<nat, seq<Outcome>>, acked: set<nat>, copied: set<nat>)

  function Init(): World {
    World({}, map[], map[], false, {}, map[], map[], {}, {})
  }

  datatype Event =
    | Deliver(delivery: nat)
    | CallbackCancelled(delivery: nat)
    | CallbackResult(delivery: nat)
    | Receive(client: nat, delivery: nat, token: string)
    | Register(client: nat)
    | Pop(client: nat, token: string, action: Action)
    | AckCompletes(client: nat)
    | NackCancelled(client: nat)
    | EnqueueCopy(client: nat, ok: bool)
    | CopyCompletes(client: nat)
    | TimerFires(client: nat, token: string)
    | ExpiryCompletes(client: nat)
    | Close(client: nat)
    | CloseCompletes(client: nat, delivery: nat)

  predicate Enabled(w: World, e: Event) {
    match e
    case Deliver(d) => d !in w.callbacks
    case CallbackCancelled(d) => d in w.callbacks && w.callbacks[d].Waiting?
    case CallbackResult(d) => d in w.callbacks && w.callbacks[d].Waiting? && d in w.results && w.results[d] != []
    case Receive(c, d, t) => c !in w.clients && d in w.channel && t !in w.tokens
    case Register(c) => c in w.clients && w.clients[c].Receiving?
    case Pop(c, t, _) => c !in w.clients
    case AckCompletes(c) => c in w.clients && w.clients[c].Popped? && w.clients[c].action.AckAction?
    case NackCancelled(c) => c in w.clients && w.clients[c].Popped? && w.clients[c].action.NackAction?
    case EnqueueCopy(c, _) => c in w.clients && w.clients[c].Popped? && !w.clients[c].action.AckAction?
    case CopyCompletes(c) => c in w.clients && w.clients[c].Copied?
    case TimerFires(c, t) => c !in w.clients && t in w.tokens
    case ExpiryCompletes(c) => c in w.clients && w.clients[c].Expiring?
    case Close(c) => c !in w.clients
    case CloseCompletes(c, d) => c in w.clients && w.clients[c].Closing? && d in w.clients[c].deliveries
  }

  function Results(w: World, d: nat): seq<Outcome> {
    if d in w.results then w.results[d] else []
  }

  /** The call of complete. */
  function Complete(w: World, d: nat, r: Outcome): World {
    w.(results := w.results[d := Results(w, d) + [r]])
  }

  function Leave(w: World, c: nat): World {
    w.(clients := w.clients - {c})
  }

  function Step(w: World, e: Event): World
    requires Enabled(w, e)
  {
    match e
    case Deliver(d) => w.(channel := w.channel + {d}, callbacks := w.callbacks[d := Waiting])
    case CallbackCancelled(d) => w.(callbacks := w.callbacks[d := ReturnedWith(Failed)])
    case CallbackResult(d) => w.(callbacks := w.callbacks[d := ReturnedWith(w.results[d][0])])
    case Receive(c, d, t) =>
      w.(channel := w.channel - {d}, tokens := w.tokens + {t}, clients := w.clients[c := Receiving(d, t)])
    case Register(c) =>
      var r := w.clients[c];
      if w.closed then Complete(Leave(w, c), r.delivery, Failed)
      else Leave(w, c).(leases := w.leases[r.token := r.delivery])
    case Pop(c, t, a) =>
      if t !in w.leases then w
      else w.(leases := w.leases - {t}, clients := w.clients[c := Popped(w.leases[t], a)])
    case AckCompletes(c) =>
      var d := w.clients[c].delivery;
      Complete(Leave(w, c), d, Success).(acked := w.acked + {d})
    case NackCancelled(c) => Complete(Leave(w, c), w.clients[c].delivery, Failed)
    case EnqueueCopy(c, ok) =>
      var d := w.clients[c].delivery;
      if ok then w.(copied := w.copied + {d}, clients := w.clients[c := Copied(d)])
      else Complete(Leave(w, c), d, Failed)
    case CopyCompletes(c) => Complete(Leave(w, c), w.clients[c].delivery, Success)
    case TimerFires(c, t) =>
      if t !in w.leases then w
      else w.(leases := w.leases - {t}, clients := w.clients[c := Expiring(w.leases[t])])
    case ExpiryCompletes(c) => Complete(Leave(w, c), w.clients[c].delivery, Failed)
    case Close(c) =>
      if w.closed then w
      else w.(closed := true, leases := map[], clients := w.clients[c := Closing(w.leases.Values)])
    case CloseCompletes(c, d) =>
      Complete(w.(clients := w.clients[c := Closing(w.clients[c].deliveries - {d})]), d, Failed)
  }

  ghost predicate IsRun(ws: seq<World>, es: seq<Event>) {
    && |ws| == |es| + 1 && ws[0] == Init()
    && forall i :: 0 <= i < |es| ==> Enabled(ws[i], es[i]) && ws[i + 1] == Step(ws[i], es[i])
  }

  // ---- ownership: whoever may still complete a delivery ----

  datatype Owner = Channel | Lease(token: string) | Goroutine(client: nat)

  predicate ClientOwns(c: Client, d: nat) {
    match c
    case Closing(ds) => d in ds
    case Receiving(x, _) => d == x
    case Popped(x, _) => d == x
    case Copied(x) => d == x
    case Expiring(x) => d == x
  }

  predicate Owns(w: World, o: Owner, d: nat) {
    match o
    case Channel => d in w.channel
    case Lease(t) => t in w.leases && w.leases[t] == d
    case Goroutine(c) => c in w.clients && ClientOwns(w.clients[c], d)
  }

  ghost predicate Unique(w: World) {
    forall o, p, d :: Owns(w, o, d) && Owns(w, p, d) ==> o == p
  }

  /** Owned deliveries belong to a callback and have not been completed; no delivery was completed
      twice. */
  ghost predicate Uncompleted(w: World) {
    && (forall o, d :: Owns(w, o, d) ==> d in w.callbacks && Results(w, d) == [])
    && (forall d :: |Results(w, d)| <= 1)
    && (forall d :: d in w.results ==> d in w.callbacks)
  }

  /** Lease tokens are drawn once. */
  ghost predicate TokensOk(w: World) {
    && (forall t :: t in w.leases ==> t in w.tokens)
    && (forall c :: TokenUnused(w, c))
    && (forall c, b :: c != b ==> TokensDiffer(w, c, b))
  }

  predicate TokenUnused(w: World, c: nat) {
    c in w.clients && w.clients[c].Receiving? ==> w.clients[c].token in w.tokens && w.clients[c].token !in w.leases
  }

  predicate TokensDiffer(w: World, c: nat, b: nat) {
    c in w.clients && b in w.clients && w.clients[c].Receiving? && w.clients[b].Receiving? ==>
      w.clients[c].token != w.clients[b].token
  }

  lemma LeasedTokensStep(w: World, e: Event, t: string)
    requires TokensOk(w) && Enabled(w, e) && t in Step(w, e).leases
    ensures t in Step(w, e).tokens
  {
    if e.Register? {
      assert TokenUnused(w, e.client);
    }
  }

  lemma TokenUnusedStep(w: World, e: Event, c: nat)
    requires TokensOk(w) && Enabled(w, e)
    ensures TokenUnused(Step(w, e), c)
  {
    assert TokenUnused(w, c);
    if e.Register? && c != e.client {
      assert TokensDiffer(w, c, e.client);
    }
  }

  lemma TokensDifferStep(w: World, e: Event, c: nat, b: nat)
    requires TokensOk(w) && Enabled(w, e) && c != b
    ensures TokensDiffer(Step(w, e), c, b)
  {
    assert TokensDiffer(w, c, b) && TokenUnused(w, c) && TokenUnused(w, b);
  }

  lemma TokensStep(w: World, e: Event)
    requires TokensOk(w) && Enabled(w, e)
    ensures TokensOk(Step(w, e))
  {
    var next := Step(w, e);
    forall t | t in next.leases ensures t in next.tokens { LeasedTokensStep(w, e, t); }
    forall c ensures TokenUnused(next, c) { TokenUnusedStep(w, e, c); }
    forall c, b | c != b ensures TokensDiffer(next, c, b) { TokensDifferStep(w, e, c, b); }
  }

  /** The delivery an event moves or completes, when it concerns a single one. */
  function Subject(w: World, e: Event): nat
    requires Enabled(w, e)
  {
    match e
    case Deliver(d) => d
    case CallbackCancelled(d) => d
    case CallbackResult(d) => d
    case Receive(_, d, _) => d
    case Register(c) => w.clients[c].delivery
    case Pop(_, t, _) => if t in w.leases then w.leases[t] else 0
    case AckCompletes(c) => w.clients[c].delivery
    case NackCancelled(c) => w.clients[c].delivery
    case EnqueueCopy(c, _) => w.clients[c].delivery
    case CopyCompletes(c) => w.clients[c].delivery
    case TimerFires(_, t) => if t in w.leases then w.leases[t] else 0
    case ExpiryCompletes(c) => w.clients[c].delivery
    case Close(_) => 0
    case CloseCompletes(_, d) => d
  }

  predicate Completes(w: World, e: Event)
    requires Enabled(w, e)
  {
    e.AckCompletes? || e.NackCancelled? || e.CopyCompletes? || e.ExpiryCompletes? || e.CloseCompletes?
    || (e.Register? && w.closed) || (e.EnqueueCopy? && !e.ok)
  }

  predicate Moves(w: World, e: Event)
    requires Enabled(w, e)
  {
    e.Deliver? || e.Receive? || (e.Register? && !w.closed) || ((e.Pop? || e.TimerFires?) && e.token in w.leases)
    || (e.EnqueueCopy? && e.ok)
  }

  /** The owner a moved delivery ends up with. */
  function NewOwner(w: World, e: Event): Owner
    requires Enabled(w, e) && Moves(w, e)
  {
    match e
    case Deliver(_) => Channel
    case Register(c) => Lease(w.clients[c].token)
    case Receive(c, _, _) => Goroutine(c)
    case Pop(c, _, _) => Goroutine(c)
    case TimerFires(c, _) => Goroutine(c)
    case EnqueueCopy(c, _) => Goroutine(c)
  }

  /** The owner before a move or a completion. */
  function OldOwner(w: World, e: Event): Owner
    requires Enabled(w, e) && (Completes(w, e) || (Moves(w, e) && !e.Deliver?))
  {
    match e
    case Receive(_, _, _) => Channel
    case Pop(_, t, _) => Lease(t)
    case TimerFires(_, t) => Lease(t)
    case Register(c) => Goroutine(c)
    case AckCompletes(c) => Goroutine(c)
    case NackCancelled(c) => Goroutine(c)
    case EnqueueCopy(c, _) => Goroutine(c)
    case CopyCompletes(c) => Goroutine(c)
    case ExpiryCompletes(c) => Goroutine(c)
    case CloseCompletes(c, _) => Goroutine(c)
  }

  lemma OldOwnerOwns(w: World, e: Event)
    requires Enabled(w, e) && (Completes(w, e) || (Moves(w, e) && !e.Deliver?))
    ensures Owns(w, OldOwner(w, e), Subject(w, e))
  {
  }

  /** A move takes the delivery from its old owner. */
  lemma OldOwnerLoses(w: World, e: Event)
    requires Enabled(w, e) && (Completes(w, e) || (Moves(w, e) && !e.Deliver? && !e.EnqueueCopy?))
    ensures !Owns(Step(w, e), OldOwner(w, e), Subject(w, e))
  {
  }

  /** Nobody gains a delivery except the new owner of a move. */
  lemma NobodyElseGains(w: World, e: Event, o: Owner, d: nat)
    requires Enabled(w, e) && !e.Close? && Owns(Step(w, e), o, d)
    ensures Owns(w, o, d) || (Moves(w, e) && d == Subject(w, e) && o == NewOwner(w, e))
  {
  }

  lemma MoveEffect(w: World, e: Event, o: Owner, d: nat)
    requires Enabled(w, e) && Moves(w, e) && Unique(w) && Uncompleted(w)
    requires Owns(Step(w, e), o, d)
    ensures if d == Subject(w, e) then o == NewOwner(w, e) else Owns(w, o, d)
  {
    NobodyElseGains(w, e, o, d);
    if d == Subject(w, e) && Owns(w, o, d) && !e.Deliver? {
      OldOwnerOwns(w, e);
      assert o == OldOwner(w, e);
      if !e.EnqueueCopy? {
        OldOwnerLoses(w, e);
      }
    }
  }

  lemma CompleteEffect(w: World, e: Event, o: Owner, d: nat)
    requires Enabled(w, e) && Completes(w, e) && Unique(w)
    requires Owns(Step(w, e), o, d)
    ensures d != Subject(w, e) && Owns(w, o, d)
  {
    NobodyElseGains(w, e, o, d);
    if d == Subject(w, e) {
      OldOwnerOwns(w, e);
      assert o == OldOwner(w, e);
      OldOwnerLoses(w, e);
    }
  }

  lemma CloseEffect(w: World, e: Event, o: Owner, d: nat)
    requires Enabled(w, e) && e.Close? && Unique(w) && Owns(Step(w, e), o, d)
    ensures Owns(w, o, d) || (o == Goroutine(e.client) && exists t :: t in w.leases && w.leases[t] == d)
  {
    if o == Goroutine(e.client) && !w.closed {
      assert d in w.leases.Values;
    }
  }

  lemma OtherEffect(w: World, e: Event, o: Owner, d: nat)
    requires Enabled(w, e) && !Moves(w, e) && !Completes(w, e) && !e.Close?
    ensures Owns(Step(w, e), o, d) <==> Owns(w, o, d)
    ensures Step(w, e).results == w.results
  {
  }

  lemma UniqueStep(w: World, e: Event)
    requires Unique(w) && Uncompleted(w) && Enabled(w, e)
    ensures Unique(Step(w, e))
  {
    var next := Step(w, e);
    forall o, p, d | Owns(next, o, d) && Owns(next, p, d) ensures o == p {
      if Moves(w, e) {
        MoveEffect(w, e, o, d);
        MoveEffect(w, e, p, d);
      } else if Completes(w, e) {
        CompleteEffect(w, e, o, d);
        CompleteEffect(w, e, p, d);
      } else if e.Close? {
        CloseUnique(w, e, o, p, d);
      } else {
        OtherEffect(w, e, o, d);
        OtherEffect(w, e, p, d);
      }
    }
  }

  lemma CloseUnique(w: World, e: Event, o: Owner, p: Owner, d: nat)
    requires Unique(w) && Enabled(w, e) && e.Close? && Owns(Step(w, e), o, d) && Owns(Step(w, e), p, d)
    ensures o == p
  {
    CloseEffect(w, e, o, d);
    CloseEffect(w, e, p, d);
    if t :| t in w.leases && w.leases[t] == d {
      assert Owns(w, Lease(t), d);
    }
  }

  lemma UncompletedStep(w: World, e: Event)
    requires Unique(w) && Uncompleted(w) && Enabled(w, e)
    ensures Uncompleted(Step(w, e))
  {
    var next := Step(w, e);
    ResultsEffect(w, e);
    forall o, d | Owns(next, o, d) ensures d in next.callbacks && Results(next, d) == [] {
      if Moves(w, e) {
        MoveEffect(w, e, o, d);
        if !e.Deliver? { OldOwnerOwns(w, e); }
      } else if Completes(w, e) {
        CompleteEffect(w, e, o, d);
      } else if e.Close? {
        CloseEffect(w, e, o, d);
        if t :| t in w.leases && w.leases[t] == d {
          assert Owns(w, Lease(t), d);
        }
      } else {
        OtherEffect(w, e, o, d);
      }
    }
    if Completes(w, e) {
      OldOwnerOwns(w, e);
      assert Results(w, Subject(w, e)) == [];
    }
    forall d ensures |Results(next, d)| <= 1 {
      assert |Results(w, d)| <= 1;
    }
  }

  lemma ResultsEffect(w: World, e: Event)
    requires Enabled(w, e)
    ensures forall d :: d in w.callbacks ==> d in Step(w, e).callbacks
    ensures if Completes(w, e) then exists r :: Step(w, e).results == w.results[Subject(w, e) := Results(w, Subject(w, e)) + [r]]
            else Step(w, e).results == w.results
    ensures e.Deliver? ==> e.delivery in Step(w, e).callbacks
  {
    if Completes(w, e) {
      var d := Subject(w, e);
      var r := Step(w, e).results[d][|Results(w, d)|];
      assert Step(w, e).results == w.results[d := Results(w, d) + [r]];
    }
  }

  // ---- why a callback may report success ----

  /** A successful completion belongs to an Ack or follows an enqueued copy, and a callback reports
      success only from such a completion. */
  ghost predicate SuccessJustified(w: World) {
    && (forall d :: Justified(w, d))
    && (forall c :: CopyRecorded(w, c))
    && (w.closed ==> w.leases == map[])
  }

  predicate Justified(w: World, d: nat) {
    && (Success in Results(w, d) ==> d in w.acked || d in w.copied)
    && (d in w.callbacks && w.callbacks[d] == ReturnedWith(Success) ==> Success in Results(w, d))
  }

  predicate CopyRecorded(w: World, c: nat) {
    c in w.clients && w.clients[c].Copied? ==> w.clients[c].delivery in w.copied
  }

  lemma JustifiedStep(w: World, e: Event, d: nat)
    requires SuccessJustified(w) && Enabled(w, e)
    ensures Justified(Step(w, e), d)
  {
    assert Justified(w, d);
    if e.CopyCompletes? {
      assert CopyRecorded(w, e.client);
    }
  }

  lemma CopyRecordedStep(w: World, e: Event, c: nat)
    requires SuccessJustified(w) && Enabled(w, e)
    ensures CopyRecorded(Step(w, e), c)
  {
    assert CopyRecorded(w, c);
  }

  lemma SuccessStep(w: World, e: Event)
    requires SuccessJustified(w) && Enabled(w, e)
    ensures SuccessJustified(Step(w, e))
  {
    forall d ensures Justified(Step(w, e), d) { JustifiedStep(w, e, d); }
    forall c ensures CopyRecorded(Step(w, e), c) { CopyRecordedStep(w, e, c); }
  }

  // ---- no delivery is forgotten ----

  ghost predicate Owned(w: World, d: nat) {
    exists o :: Owns(w, o, d)
  }

  /** Every delivery has a result, or somebody who has to give it one. */
  ghost predicate NoneForgotten(w: World) {
    forall d :: d in w.callbacks ==> Results(w, d) != [] || Owned(w, d)
  }

  lemma OwnerStays(w: World, e: Event, o: Owner, d: nat)
    requires Unique(w) && Uncompleted(w) && TokensOk(w) && Enabled(w, e) && Owns(w, o, d)
    ensures Owned(Step(w, e), d) || Results(Step(w, e), d) != []
  {
    var next := Step(w, e);
    if Moves(w, e) && d == Subject(w, e) {
      assert Owns(next, NewOwner(w, e), d);
    } else if Completes(w, e) && d == Subject(w, e) {
      ResultsEffect(w, e);
    } else if e.Close? && o.Lease? && !w.closed {
      assert Owns(next, Goroutine(e.client), d);
    } else {
      KeepsDelivery(w, e, o, d);
    }
  }

  lemma KeepsDelivery(w: World, e: Event, o: Owner, d: nat)
    requires TokensOk(w) && Enabled(w, e) && Owns(w, o, d) && !(e.Close? && o.Lease? && !w.closed)
    requires (Moves(w, e) || Completes(w, e)) ==> d != Subject(w, e)
    ensures Owns(Step(w, e), o, d)
  {
    if e.Register? {
      assert TokenUnused(w, e.client);
    }
  }

  lemma ForgottenStep(w: World, e: Event)
    requires Unique(w) && Uncompleted(w) && TokensOk(w) && NoneForgotten(w) && Enabled(w, e)
    ensures NoneForgotten(Step(w, e))
  {
    var next := Step(w, e);
    ResultsEffect(w, e);
    forall d | d in next.callbacks ensures Results(next, d) != [] || Owned(next, d) {
      if d !in w.callbacks {
        assert Owns(next, Channel, d);
      } else if Results(w, d) == [] {
        var o :| Owns(w, o, d);
        OwnerStays(w, e, o, d);
      }
    }
  }

  // ---- one settlement per delivery ----

  ghost predicate HasCopy(w: World, d: nat) {
    exists c :: c in w.clients && w.clients[c] == Copied(d)
  }

  /** No delivery is both acknowledged and copied; a settled one is completed with success or about to
      be. */
  ghost predicate SettledOnce(w: World) {
    && w.acked !! w.copied
    && (forall d :: d in w.acked ==> Results(w, d) == [Success])
    && (forall d :: d in w.copied ==> Results(w, d) == [Success] || (Results(w, d) == [] && HasCopy(w, d)))
  }

  /** A delivery that a client has popped for a decision has not been settled yet. */
  lemma PoppedIsUnsettled(w: World, c: nat)
    requires Unique(w) && Uncompleted(w) && SettledOnce(w) && c in w.clients && w.clients[c].Popped?
    ensures w.clients[c].delivery !in w.acked && w.clients[c].delivery !in w.copied
  {
    var d := w.clients[c].delivery;
    assert Owns(w, Goroutine(c), d);
    if b :| b in w.clients && w.clients[b] == Copied(d) {
      assert Owns(w, Goroutine(b), d);
    }
  }

  /** Only a delivery without a result is completed; the others keep theirs. */
  lemma CompletesFresh(w: World, e: Event, d: nat)
    requires Uncompleted(w) && Enabled(w, e)
    ensures Completes(w, e) ==> Results(w, Subject(w, e)) == []
    ensures !Completes(w, e) || d != Subject(w, e) ==> Results(Step(w, e), d) == Results(w, d)
  {
    if Completes(w, e) {
      OldOwnerOwns(w, e);
    }
    ResultsEffect(w, e);
  }

  lemma AckedStep(w: World, e: Event, d: nat)
    requires Unique(w) && Uncompleted(w) && SettledOnce(w) && Enabled(w, e) && d in Step(w, e).acked
    ensures Results(Step(w, e), d) == [Success]
  {
    CompletesFresh(w, e, d);
  }

  lemma CopiedStep(w: World, e: Event, d: nat)
    requires Unique(w) && Uncompleted(w) && SettledOnce(w) && Enabled(w, e) && d in Step(w, e).copied
    ensures var next := Step(w, e); Results(next, d) == [Success] || (Results(next, d) == [] && HasCopy(next, d))
  {
    var next := Step(w, e);
    CompletesFresh(w, e, d);
    if e.EnqueueCopy? && e.ok && d == w.clients[e.client].delivery {
      OldOwnerOwns(w, e);
      assert next.clients[e.client] == Copied(d);
    } else if Results(w, d) == [] {
      var b :| b in w.clients && w.clients[b] == Copied(d);
      assert Owns(w, Goroutine(b), d);
      if Completes(w, e) && d == Subject(w, e) {
        OldOwnerOwns(w, e);
        assert OldOwner(w, e) == Goroutine(b);
      } else {
        assert b in next.clients && next.clients[b] == Copied(d);
      }
    }
  }

  lemma SettledStep(w: World, e: Event)
    requires Unique(w) && Uncompleted(w) && SettledOnce(w) && Enabled(w, e)
    ensures SettledOnce(Step(w, e))
  {
    var next := Step(w, e);
    if (e.AckCompletes? || e.EnqueueCopy?) && w.clients[e.client].Popped? {
      PoppedIsUnsettled(w, e.client);
    }
    forall d | d in next.acked ensures Results(next, d) == [Success] { AckedStep(w, e, d); }
    forall d | d in next.copied ensures Results(next, d) == [Success] || (Results(next, d) == [] && HasCopy(next, d)) {
      CopiedStep(w, e, d);
    }
  }

  lemma {:induction false} Invariants(ws: seq<World>, es: seq<Event>, i: nat)
    requires IsRun(ws, es) && i < |ws|
    ensures Unique(ws[i]) && Uncompleted(ws[i]) && TokensOk(ws[i]) && SuccessJustified(ws[i]) && SettledOnce(ws[i])
  {
    if i > 0 {
      Invariants(ws, es, i - 1);
      UniqueStep(ws[i - 1], es[i - 1]);
      UncompletedStep(ws[i - 1], es[i - 1]);
      TokensStep(ws[i - 1], es[i - 1]);
      SuccessStep(ws[i - 1], es[i - 1]);
      SettledStep(ws[i - 1], es[i - 1]);
    }
  }

  /** At every moment of every run a delivery has its result, or the channel, a lease or a goroutine holds
      it and has still to give it one. */
  lemma {:induction false} NeverForgotten(ws: seq<World>, es: seq<Event>, i: nat)
    requires IsRun(ws, es) && i < |ws|
    ensures NoneForgotten(ws[i])
  {
    if i > 0 {
      NeverForgotten(ws, es, i - 1);
      Invariants(ws, es, i - 1);
      ForgottenStep(ws[i - 1], es[i - 1]);
    }
  }

  /** Whatever the interleaving with expiry and Close, complete is called at most once per delivery,
      even before the once-guard is taken into account. */
  lemma CompletedAtMostOnce(ws: seq<World>, es: seq<Event>, i: nat, d: nat)
    requires IsRun(ws, es) && i < |ws|
    ensures |Results(ws[i], d)| <= 1
  {
    Invariants(ws, es, i);
  }

  /** The transport sees success only after an Ack, or after a retry or dead-letter copy was enqueued. */
  lemma SuccessOnlyAfterAckOrCopy(ws: seq<World>, es: seq<Event>, i: nat, d: nat)
    requires IsRun(ws, es) && i < |ws|
    requires d in ws[i].callbacks && ws[i].callbacks[d] == ReturnedWith(Success)
    ensures d in ws[i].acked || d in ws[i].copied
  {
    Invariants(ws, es, i);
    assert Justified(ws[i], d);
  }

  /** Conversely, once an Ack took effect, or a copy was enqueued and completed, the callback that reads
      its result reports success; with any other result it reports failure. */
  lemma SettledMeansSuccess(ws: seq<World>, es: seq<Event>, i: nat, d: nat)
    requires IsRun(ws, es) && i < |es| && es[i] == CallbackResult(d)
    ensures ws[i + 1].callbacks[d] == ReturnedWith(if d in ws[i].acked || d in ws[i].copied then Success else Failed)
  {
    Invariants(ws, es, i);
    assert Justified(ws[i], d) && Enabled(ws[i], es[i]);
    var results := Results(ws[i], d);
    assert results == ws[i].results[d] && results[0] in results;
    assert ws[i + 1].callbacks[d] == ReturnedWith(results[0]);
    if d in ws[i].acked || d in ws[i].copied {
      assert results == [Success];
    } else {
      assert results[0] != Success;
    }
  }

  /** Ack and the copying operations never both settle a delivery. */
  lemma NeverAckedAndCopied(ws: seq<World>, es: seq<Event>, i: nat, d: nat)
    requires IsRun(ws, es) && i < |ws|
    ensures !(d in ws[i].acked && d in ws[i].copied)
  {
    Invariants(ws, es, i);
  }

  /** No lease exists once Close has taken the mutex. */
  lemma NoLeaseAfterClose(ws: seq<World>, es: seq<Event>, i: nat)
    requires IsRun(ws, es) && i < |ws| && ws[i].closed
    ensures ws[i].leases == map[]
  {
    Invariants(ws, es, i);
  }
}
