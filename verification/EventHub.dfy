/** The event hub of framework/realtime_event_hub.py: its state as a value, the effect of
    each lock section, and the class whose methods perform them. Interleavings of these
    sections are the subject of EventHubProtocol. */
module EventHub {
  import opened Common
  import opened Backpressure
  import opened BackpressureRuntime

  /** `sequence` is 0 for an event that exposes no valid EventSequence. */
  datatype Event = Event(sequence: nat, isDelta: bool, body: nat)

  type Token = nat

  /** What one `emit` call supplies. Factories and projector are pure and total. The
      overflow factory gets the sequence, the first dropped sequence and the loss count. */
  datatype Request = Request(
    make: nat -> Event,
    overflow: Option<(nat, Option<nat>, nat) -> Event>,
    project: Event -> Option<Event>)

  datatype Delivery = Delivery(
    event: Event,
    callbacks: seq<Token>,
    legacyEvent: Option<Event>,
    legacyCallbacks: seq<Token>)

  datatype Call = Call(token: Token, event: Event)

  datatype Hub = Hub(
    historyLimit: nat,
    next: nat,
    history: seq<Event>,
    pending: seq<Delivery>,
    callbacks: seq<Token>,
    legacyCallbacks: seq<Token>,
    closed: bool,
    dispatching: bool,
    emitted: nat,
    overflowed: nat,
    rejectedClosed: nat,
    rejectedFull: nat)
  {
    predicate Full() { |history| >= historyLimit }

    function DropCount(r: Request): (drop: nat)
      ensures 2 <= historyLimit ==> drop <= |history|
    {
      if !Full() then 0 else |history| + (if r.overflow.Some? then 2 else 1) - historyLimit
    }

    function FirstDropped(r: Request): Option<nat> {
      if Full() && history != [] then Some(history[0].sequence) else None
    }

    /** The event and, when history is full and a factory is given, the overflow record. */
    function EventsFor(r: Request): (events: seq<Event>)
      ensures |events| == if Full() && r.overflow.Some? then 2 else 1
    {
      [r.make(next)]
      + if Full() && r.overflow.Some?
        then [r.overflow.value(next + 1, FirstDropped(r), overflowed + DropCount(r))]
        else []
    }

    /** Every factory kept the sequence number it was given. */
    predicate SequencesKept(r: Request) {
      var events := EventsFor(r);
      events[0].sequence == next && (|events| == 2 ==> events[1].sequence == next + 1)
    }

    function DeliveryFor(r: Request, e: Event): Delivery {
      var legacyEvent := r.project(e);
      Delivery(e, callbacks, legacyEvent, if legacyEvent.Some? then legacyCallbacks else [])
    }

    function DeliveriesFor(r: Request): (ds: seq<Delivery>)
      ensures |ds| == |EventsFor(r)|
      ensures forall i :: 0 <= i < |ds| ==> ds[i] == DeliveryFor(r, EventsFor(r)[i])
    {
      var events := EventsFor(r);
      [DeliveryFor(r, events[0])] + if |events| == 2 then [DeliveryFor(r, events[1])] else []
    }

    /** The accepting tail of `emit`: allocate, evict, append to history and queue. */
    function Commit(ds: seq<Delivery>, drop: nat): Hub
      requires drop <= |history|
    {
      this.(next := next + |ds|,
            emitted := emitted + |ds|,
            overflowed := overflowed + drop,
            history := history[drop..] + EventsOf(ds),
            pending := pending + ds,
            dispatching := true)
    }
  }

  function EventsOf(ds: seq<Delivery>): (r: seq<Event>)
    ensures |r| == |ds|
    ensures forall i :: 0 <= i < |r| ==> r[i] == ds[i].event
  {
    seq(|ds|, i requires 0 <= i < |ds| => ds[i].event)
  }

  function Fan(tokens: seq<Token>, e: Event): (r: seq<Call>)
    ensures |r| == |tokens|
    ensures forall i :: 0 <= i < |r| ==> r[i] == Call(tokens[i], e)
  {
    if tokens == [] then [] else [Call(tokens[0], e)] + Fan(tokens[1..], e)
  }

  /** The callback invocations one delivery stands for, in order. */
  function Calls(d: Delivery): seq<Call> {
    Fan(d.callbacks, d.event)
    + if d.legacyEvent.Some? then Fan(d.legacyCallbacks, d.legacyEvent.value) else []
  }

  // ------------------------------------------------- emit without interference

  datatype Gates = Gates(sub: Controller, resp: Controller)

  datatype EmitOutcome =
    | HubClosed
    | SequenceChanged               // ValueError: a factory did not keep its sequence
    | IdentityOwned                 // ValueError: the item identity is already owned
    | Backpressured(boundary: Boundary, code: RejectionCode)
    | Emitted(event: Event)

  datatype AdmitFailure = Owned | Refused(boundary: Boundary, code: RejectionCode)

  datatype Admitted = Admitted(gates: Gates, failure: Option<AdmitFailure>)

  /** `_admit_delivery_locked`. */
  function AdmitDelivery(g: Gates, e: Event): Admitted {
    var x := e.sequence;
    var sub := g.sub.Admit(x, false);
    match g.sub.AdmitOutcomeOf(x, false)
    case DuplicateItem => Admitted(g, Some(Owned))
    case Rejected(code) => Admitted(Gates(sub, g.resp), Some(Refused(EventSubscriber, code)))
    case Accepted =>
      if !e.isDelta then Admitted(Gates(sub, g.resp), None)
      else
        var resp := g.resp.Admit(x, false);
        match g.resp.AdmitOutcomeOf(x, false)
        case DuplicateItem => Admitted(Gates(sub, g.resp), Some(Owned))
        case Rejected(code) =>
          Admitted(Gates(sub.Withdraw(x), resp), Some(Refused(ResponseDelta, code)))
        case Accepted => Admitted(Gates(sub, resp), None)
  }

  function WithdrawDelivery(g: Gates, e: Event): Gates {
    Gates(g.sub.Withdraw(e.sequence), if e.isDelta then g.resp.Withdraw(e.sequence) else g.resp)
  }

  /** Withdraw the accepted items again, in the order they were accepted. */
  function RollBack(g: Gates, events: seq<Event>): Gates
    decreases |events|
  {
    if events == [] then g else RollBack(WithdrawDelivery(g, events[0]), events[1..])
  }

  /** Admit all of `events`, or none. */
  function AdmitAll(g: Gates, events: seq<Event>, done: nat): Admitted
    requires done <= |events|
    decreases |events| - done
  {
    if done == |events| then Admitted(g, None)
    else
      var step := AdmitDelivery(g, events[done]);
      match step.failure
      case None => AdmitAll(step.gates, events, done + 1)
      case Some(Refused(_, _)) => Admitted(RollBack(step.gates, events[..done]), step.failure)
      case Some(Owned) => step
  }

  datatype EmitResult = EmitResult(hub: Hub, gates: Gates, outcome: EmitOutcome)

  /** The lock section of `emit`. */
  function Emit(h: Hub, g: Gates, r: Request): EmitResult
    requires 2 <= h.historyLimit
  {
    if h.closed then EmitResult(h.(rejectedClosed := h.rejectedClosed + 1), g, HubClosed)
    else if !h.SequencesKept(r) then EmitResult(h, g, SequenceChanged)
    else
      var admitted := AdmitAll(g, h.EventsFor(r), 0);
      match admitted.failure
      case None =>
        EmitResult(h.Commit(h.DeliveriesFor(r), h.DropCount(r)), admitted.gates, Emitted(r.make(h.next)))
      case Some(Refused(b, code)) =>
        EmitResult(h.(rejectedFull := h.rejectedFull + 1), admitted.gates, Backpressured(b, code))
      case Some(Owned) => EmitResult(h, admitted.gates, IdentityOwned)
  }

  /** Some factory, given its sequence number, made an event with another. */
  predicate MovesSequence(h: Hub, r: Request)
    requires 2 <= h.historyLimit
  {
    || r.make(h.next).sequence != h.next
    || (|h.history| >= h.historyLimit && r.overflow.Some?
        && r.overflow.value(h.next + 1, Some(h.history[0].sequence), h.overflowed + |h.history| + 2 - h.historyLimit)
           .sequence != h.next + 1)
  }

  /** What `emit` answers and leaves, apart from admission: it raises for a closed hub, and
      only then counts a closed rejection; it raises for a moved sequence and changes nothing;
      and an event it returns is the request's own, queued with the request's projection for
      whoever is registered. */
  lemma EmitAnswers(h: Hub, g: Gates, r: Request)
    requires 2 <= h.historyLimit
    ensures Emit(h, g, r).outcome.HubClosed? <==> h.closed
    ensures h.closed ==> Emit(h, g, r).hub == h.(rejectedClosed := h.rejectedClosed + 1) && Emit(h, g, r).gates == g
    ensures Emit(h, g, r).outcome.SequenceChanged? <==> !h.closed && MovesSequence(h, r)
    ensures Emit(h, g, r).outcome.SequenceChanged? ==> Emit(h, g, r).hub == h && Emit(h, g, r).gates == g
    ensures Emit(h, g, r).outcome.Emitted? ==>
              var e, h' := r.make(h.next), Emit(h, g, r).hub;
              var n := |h.pending|;
              && Emit(h, g, r).outcome.event == e && n < |h'.pending| && h'.pending[..n] == h.pending
              && h'.pending[n].event == e && h'.pending[n].legacyEvent == r.project(e)
              && h'.pending[n].callbacks == h.callbacks
              && (r.project(e).Some? ==> h'.pending[n].legacyCallbacks == h.legacyCallbacks)
              && |h'.pending| == n + (if |h.history| >= h.historyLimit && r.overflow.Some? then 2 else 1)
              && |h'.pending| - n == h'.next - h.next == h'.emitted - h.emitted
              && e in h'.history
  {
    hide AdmitAll;
    if Emit(h, g, r).outcome.Emitted? {
      var ds := h.DeliveriesFor(r);
      assert (h.pending + ds)[|h.pending|] == ds[0];
      assert EventsOf(ds)[0] == ds[0].event;
      assert r.make(h.next) in EventsOf(ds);
    }
  }

  /** Who refuses a record, exactly: the subscriber controller if it does, else for a delta the
      response controller, each with its own code; a record neither refuses and neither owns
      is admitted by both that take it. */
  lemma RefusalIsExact(g: Gates, e: Event, code: RejectionCode)
    ensures var sub, resp := g.sub.AdmitOutcomeOf(e.sequence, false), g.resp.AdmitOutcomeOf(e.sequence, false);
            var a := AdmitDelivery(g, e);
            && (a.failure == Some(Refused(EventSubscriber, code)) <==> sub == Rejected(code))
            && (a.failure == Some(Refused(ResponseDelta, code)) <==>
                  sub == Accepted && e.isDelta && resp == Rejected(code))
            && (a.failure == Some(Owned) <==>
                  sub == DuplicateItem || (sub == Accepted && e.isDelta && resp == DuplicateItem))
            && (a.failure.None? <==> sub == Accepted && (e.isDelta ==> resp == Accepted))
            && (a.failure.None? ==>
                  && a.gates.sub.pending == g.sub.pending + [e.sequence]
                  && a.gates.resp == if e.isDelta then g.resp.(pending := g.resp.pending + [e.sequence]) else g.resp)
  {
  }

  // ---------------------------------------------------------- transactionality

  /** Same items owned in the same order, same admission state: only the overflow count,
      a diagnostic, may differ. */
  ghost predicate SameOwnership(a: Controller, b: Controller) {
    a.(overflow := 0) == b.(overflow := 0)
  }

  ghost predicate SameOwnerships(a: Gates, b: Gates) {
    SameOwnership(a.sub, b.sub) && SameOwnership(a.resp, b.resp)
  }

  lemma AdmitThenWithdraw(c: Controller, x: ItemId)
    requires !c.Owns(x)
    ensures SameOwnership(c.Admit(x, false).Withdraw(x), c)
  {
    if c.AdmitOutcomeOf(x, false) == Accepted {
      RemoveFirstAt(c.pending, x, []);
      assert c.pending + [x] + [] == c.pending + [x];
      assert c.pending + [] == c.pending;
    } else {
      assert IndexOf(c.pending, x) == |c.pending|;
    }
  }

  lemma FailedDeliveryLeavesNoTrace(g: Gates, e: Event)
    ensures match AdmitDelivery(g, e).failure
            case Some(Refused(_, _)) => SameOwnerships(AdmitDelivery(g, e).gates, g)
            case _ => true
  {
    if !g.sub.Owns(e.sequence) { AdmitThenWithdraw(g.sub, e.sequence); }
  }

  lemma AdmittedDeliveryIsUndone(g: Gates, g': Gates, e: Event)
    requires AdmitDelivery(g, e).failure.None?
    requires SameOwnerships(g', AdmitDelivery(g, e).gates)
    ensures SameOwnerships(WithdrawDelivery(g', e), g)
  {
    AdmitThenWithdraw(g.sub, e.sequence);
    if e.isDelta { AdmitThenWithdraw(g.resp, e.sequence); }
  }

  /** A rejected emit, whichever delivery and whichever controller refused it, leaves the
      hub and both controllers owning exactly what they owned before. */
  lemma RejectedEmitChangesNothing(h: Hub, g: Gates, r: Request)
    requires 2 <= h.historyLimit
    requires Emit(h, g, r).outcome.Backpressured?
    ensures Emit(h, g, r).hub == h.(rejectedFull := h.rejectedFull + 1)
    ensures SameOwnerships(Emit(h, g, r).gates, g)
  {
    var events := h.EventsFor(r);
    var first := AdmitDelivery(g, events[0]);
    FailedDeliveryLeavesNoTrace(g, events[0]);
    AdmitAllUnfolds(g, events);
    if first.failure.None? && |events| == 2 {
      FailedDeliveryLeavesNoTrace(first.gates, events[1]);
      AdmittedDeliveryIsUndone(g, AdmitDelivery(first.gates, events[1]).gates, events[0]);
    }
  }

  /** `emit` admits one or two deliveries; this is all that can come of it. */
  lemma AdmitAllUnfolds(g: Gates, events: seq<Event>)
    requires 1 <= |events| <= 2
    ensures var first := AdmitDelivery(g, events[0]);
            AdmitAll(g, events, 0)
            == if first.failure.Some? || |events| == 1 then first
               else var second := AdmitDelivery(first.gates, events[1]);
                    match second.failure
                    case Some(Refused(_, _)) =>
                      Admitted(WithdrawDelivery(second.gates, events[0]), second.failure)
                    case _ => second
  {
    var first := AdmitDelivery(g, events[0]);
    assert events[..0] == [];
    assert RollBack(first.gates, []) == first.gates;
    if first.failure.None? {
      assert AdmitAll(g, events, 0) == AdmitAll(first.gates, events, 1);
      if |events| == 2 {
        var second := AdmitDelivery(first.gates, events[1]);
        RollBackOne(second.gates, events);
        assert second.failure.None? ==> AdmitAll(first.gates, events, 1) == AdmitAll(second.gates, events, 2);
      }
    }
  }

  lemma RollBackOne(g: Gates, events: seq<Event>)
    requires |events| >= 1
    ensures RollBack(g, events[..1]) == WithdrawDelivery(g, events[0])
  {
    assert events[..1][0] == events[0] && events[..1][1..] == [];
    assert RollBack(WithdrawDelivery(g, events[0]), []) == WithdrawDelivery(g, events[0]);
  }

  /** So a later retry that succeeds is given the sequence number the rejected one had. */
  lemma RetryTakesTheSameSequence(h: Hub, g: Gates, r: Request, g': Gates, retry: Request)
    requires 2 <= h.historyLimit
    requires Emit(h, g, r).outcome.Backpressured?
    requires Emit(Emit(h, g, r).hub, g', retry).outcome.Emitted?
    ensures Emit(Emit(h, g, r).hub, g', retry).outcome.event == retry.make(h.next)
    ensures retry.make(h.next).sequence == h.next
    ensures Emit(Emit(h, g, r).hub, g', retry).hub.next
            == h.next + if h.Full() && retry.overflow.Some? then 2 else 1
  {
    RejectedEmitChangesNothing(h, g, r);
  }

  // ------------------------------------------------------------ exact admission

  /** No controller owns a sequence number that is still to be allocated. */
  ghost predicate Ahead(h: Hub, g: Gates) {
    forall x: ItemId :: g.sub.Owns(x) || g.resp.Owns(x) ==> x < h.next
  }

  ghost predicate Fresh(g: Gates, x: ItemId) { !g.sub.Owns(x) && !g.resp.Owns(x) }

  lemma DeliveryAdmission(g: Gates, e: Event)
    requires Fresh(g, e.sequence)
    ensures var a := AdmitDelivery(g, e);
            && a.gates.sub.maxPending == g.sub.maxPending && a.gates.sub.state == g.sub.state
            && a.gates.resp.maxPending == g.resp.maxPending && a.gates.resp.state == g.resp.state
            && (a.failure.None? ==> |a.gates.sub.pending| == |g.sub.pending| + 1)
            && (forall y: ItemId :: y != e.sequence && Fresh(g, y) ==> Fresh(a.gates, y))
    ensures !e.isDelta ==>
              AdmitDelivery(g, e).failure
              == match g.sub.state
                 case Accepting =>
                   if |g.sub.pending| < g.sub.maxPending then None
                   else Some(Refused(EventSubscriber, CapacityReached))
                 case Paused => Some(Refused(EventSubscriber, AdmissionPaused))
                 case Closed => Some(Refused(EventSubscriber, AdmissionClosed))
    ensures && g.sub.state == Accepting && g.resp.state == Accepting
            && g.sub.maxPending == g.resp.maxPending && |g.resp.pending| <= |g.sub.pending|
            ==>
              && AdmitDelivery(g, e).failure
                 == (if |g.sub.pending| < g.sub.maxPending then None
                     else Some(Refused(EventSubscriber, CapacityReached)))
              && (AdmitDelivery(g, e).failure.None? ==>
                    |AdmitDelivery(g, e).gates.resp.pending| <= |AdmitDelivery(g, e).gates.sub.pending|)
  {
    var a := AdmitDelivery(g, e);
    var x := e.sequence;
    forall y: ItemId | y != x && Fresh(g, y) ensures Fresh(a.gates, y) {
      var appended := g.sub.pending + [x];
      assert y !in appended;
      assert y !in RemoveFirst(appended, x);
    }
  }

  /** With a response-delta controller that holds no more than the subscriber controller
      (as it does whenever no drainer is between its two claims), an emit goes through
      exactly when all its records fit the delivery limit, and the only boundary that can
      refuse it for capacity is the subscriber one. */
  lemma ExactAdmission(h: Hub, g: Gates, r: Request)
    requires 2 <= h.historyLimit && !h.closed && h.SequencesKept(r) && Ahead(h, g)
    requires g.sub.state == Accepting && g.resp.state == Accepting
    requires g.sub.maxPending == g.resp.maxPending && |g.resp.pending| <= |g.sub.pending|
    ensures Emit(h, g, r).outcome.Emitted?
            <==> |g.sub.pending| + |h.EventsFor(r)| <= g.sub.maxPending
    ensures !Emit(h, g, r).outcome.Emitted?
            ==> Emit(h, g, r).outcome == Backpressured(EventSubscriber, CapacityReached)
  {
    var events := h.EventsFor(r);
    AdmitAllUnfolds(g, events);
    assert Fresh(g, h.next) && Fresh(g, h.next + 1);
    DeliveryAdmission(g, events[0]);
    if |events| == 2 { DeliveryAdmission(AdmitDelivery(g, events[0]).gates, events[1]); }
  }

  /** An emit without response deltas does not depend on the response-delta controller. */
  lemma ExactNonDeltaAdmission(h: Hub, g: Gates, r: Request)
    requires 2 <= h.historyLimit && !h.closed && h.SequencesKept(r) && Ahead(h, g)
    requires forall e :: e in h.EventsFor(r) ==> !e.isDelta
    ensures Emit(h, g, r).outcome.Emitted?
            <==> g.sub.state == Accepting && |g.sub.pending| + |h.EventsFor(r)| <= g.sub.maxPending
    ensures !Emit(h, g, r).outcome.Emitted? ==>
              Emit(h, g, r).outcome
              == Backpressured(EventSubscriber, match g.sub.state
                                                case Accepting => CapacityReached
                                                case Paused => AdmissionPaused
                                                case Closed => AdmissionClosed)
  {
    var events := h.EventsFor(r);
    assert !events[0].isDelta && (|events| == 2 ==> !events[1].isDelta);
    AdmitAllUnfolds(g, events);
    assert Fresh(g, h.next) && Fresh(g, h.next + 1);
    DeliveryAdmission(g, events[0]);
    if |events| == 2 { DeliveryAdmission(AdmitDelivery(g, events[0]).gates, events[1]); }
  }

  /** The permitted delivery limit of one: once history is full, an emit with an overflow
      factory is refused in every state of the controllers, so the advertised retry of the
      rejection can never succeed. */
  lemma LimitOneNeverAdmitsOverflow(h: Hub, g: Gates, r: Request)
    requires 2 <= h.historyLimit && h.Full() && r.overflow.Some? && g.sub.maxPending == 1
    ensures !Emit(h, g, r).outcome.Emitted?
  {
    AdmitAllUnfolds(g, h.EventsFor(r));
  }

  // ---------------------------------------------------------- queue agreement

  function DeliveryIds(ds: seq<Delivery>): (r: seq<ItemId>)
    ensures |r| == |ds|
    ensures forall i :: 0 <= i < |r| ==> r[i] == ds[i].event.sequence
  {
    seq(|ds|, i requires 0 <= i < |ds| => ds[i].event.sequence)
  }

  function DeltaIds(ds: seq<Delivery>): seq<ItemId> {
    if ds == [] then []
    else (if ds[0].event.isDelta then [ds[0].event.sequence] else []) + DeltaIds(ds[1..])
  }

  lemma {:induction false} DeltaIdsConcat(a: seq<Delivery>, b: seq<Delivery>)
    ensures DeltaIds(a + b) == DeltaIds(a) + DeltaIds(b)
  {
    if a == [] {
      assert a + b == b;
    } else {
      DeltaIdsConcat(a[1..], b);
      DeltaIdsHead(a);
      DeltaIdsHead(a + b);
      hide DeltaIds;
      assert (a + b)[0] == a[0] && (a + b)[1..] == a[1..] + b;
      ConcatAssoc(if a[0].event.isDelta then [a[0].event.sequence] else [], DeltaIds(a[1..]), DeltaIds(b));
    }
  }

  lemma DeltaIdsHead(a: seq<Delivery>)
    requires a != []
    ensures DeltaIds(a) == (if a[0].event.isDelta then [a[0].event.sequence] else []) + DeltaIds(a[1..])
  {
  }

  lemma DeltaIdsBound(ds: seq<Delivery>)
    ensures |DeltaIds(ds)| <= |ds|
    ensures forall x :: x in DeltaIds(ds) ==> exists d :: d in ds && d.event.isDelta && d.event.sequence == x
  {
  }

  /** The invocations that deliveries stand for, in delivery order. */
  function Flatten(ds: seq<Delivery>): seq<Call> {
    if ds == [] then [] else Flatten(ds[..|ds| - 1]) + Calls(ds[|ds| - 1])
  }

  lemma {:induction false} FlattenConcat(a: seq<Delivery>, b: seq<Delivery>)
    ensures Flatten(a + b) == Flatten(a) + Flatten(b)
  {
    if b == [] {
      assert a + b == a;
    } else {
      var front, last := b[..|b| - 1], b[|b| - 1];
      FlattenConcat(a, front);
      FlattenLast(b);
      FlattenLast(a + b);
      hide Flatten, Calls;
      assert (a + b)[..|a + b| - 1] == a + front && (a + b)[|a + b| - 1] == last;
      ConcatAssoc(Flatten(a), Flatten(front), Calls(last));
    }
  }

  lemma FlattenLast(b: seq<Delivery>)
    requires b != []
    ensures Flatten(b) == Flatten(b[..|b| - 1]) + Calls(b[|b| - 1])
  {
  }

  /** Both controllers hold exactly the queued deliveries, in order, and nothing else. */
  ghost predicate AtRest(h: Hub, g: Gates) {
    && g.sub.pending == DeliveryIds(h.pending) && g.sub.inFlight == {}
    && g.resp.pending == DeltaIds(h.pending) && g.resp.inFlight == {}
  }

  // ---------------------------------------------------------------- the class

  class RealtimeEventHub {
    const historyLimit: nat
    const subscriberGate: BoundedBackpressureRuntime
    const responseGate: BoundedBackpressureRuntime
    var nextSequence: nat
    var history: seq<Event>
    var pending: seq<Delivery>
    var callbacks: seq<Token>
    var legacyCallbacks: seq<Token>
    var closed: bool
    var dispatching: bool
    var emittedEventCount: nat
    var historyOverflowCount: nat
    var rejectedAfterCloseCount: nat
    var backpressureRejectionCount: nat
    /** The callback invocations made so far. */
    var callLog: seq<Call>

    ghost predicate Valid()
      reads this, subscriberGate, responseGate
    {
      && subscriberGate != responseGate
      && subscriberGate.Valid() && subscriberGate.boundary == EventSubscriber
      && responseGate.Valid() && responseGate.boundary == ResponseDelta
      && 2 <= historyLimit && |history| <= historyLimit
    }

    ghost function View(): Hub
      reads this
    {
      Hub(historyLimit, nextSequence, history, pending, callbacks, legacyCallbacks, closed, dispatching,
          emittedEventCount, historyOverflowCount, rejectedAfterCloseCount, backpressureRejectionCount)
    }

    ghost function GatesView(): Gates
      reads subscriberGate, responseGate
    {
      Gates(subscriberGate.View(), responseGate.View())
    }

    constructor (historyLimit: nat, deliveryPendingLimit: nat)
      requires 2 <= historyLimit && 1 <= deliveryPendingLimit
      ensures Valid() && fresh(subscriberGate) && fresh(responseGate)
      ensures View() == Hub(historyLimit, 1, [], [], [], [], false, false, 0, 0, 0, 0)
      ensures GatesView() == Gates(Controller(deliveryPendingLimit, 1, Accepting, [], {}, 0),
                                   Controller(deliveryPendingLimit, 1, Accepting, [], {}, 0))
      ensures callLog == []
    {
      this.historyLimit := historyLimit;
      subscriberGate := new BoundedBackpressureRuntime(EventSubscriber, deliveryPendingLimit, 1, true);
      responseGate := new BoundedBackpressureRuntime(ResponseDelta, deliveryPendingLimit, 1, true);
      nextSequence, history, pending, callbacks, legacyCallbacks := 1, [], [], [], [];
      closed, dispatching, callLog := false, false, [];
      emittedEventCount, historyOverflowCount := 0, 0;
      rejectedAfterCloseCount, backpressureRejectionCount := 0, 0;
    }

    /** `None` is the EventHubClosedError. The token is new to the hub. */
    method Subscribe(token: Token, legacy: bool) returns (registered: bool)
      requires Valid() && token !in callbacks + legacyCallbacks
      modifies this`callbacks, this`legacyCallbacks
      ensures Valid() && registered == !closed
      ensures callbacks == old(callbacks) + if registered && !legacy then [token] else []
      ensures legacyCallbacks == old(legacyCallbacks) + if registered && legacy then [token] else []
    {
      registered := !closed;
      if registered {
        if legacy { legacyCallbacks := legacyCallbacks + [token]; } else { callbacks := callbacks + [token]; }
      }
    }

    method Unsubscribe(token: Token) returns (removed: bool)
      requires Valid()
      modifies this`callbacks, this`legacyCallbacks
      ensures Valid()
      ensures removed == (token in old(callbacks) || token in old(legacyCallbacks))
      ensures callbacks == RemoveFirst(old(callbacks), token)
      ensures legacyCallbacks == RemoveFirst(old(legacyCallbacks), token)
    {
      removed := token in callbacks || token in legacyCallbacks;
      callbacks := RemoveFirst(callbacks, token);
      legacyCallbacks := RemoveFirst(legacyCallbacks, token);
    }

    method Close() returns (first: bool)
      requires Valid()
      modifies this`closed, this`callbacks, this`legacyCallbacks, subscriberGate, responseGate
      ensures Valid() && first == !old(closed) && closed
      ensures first ==> View() == old(View()).(closed := true, callbacks := [], legacyCallbacks := [])
      ensures first ==> GatesView() == Gates(old(GatesView()).sub.Close(), old(GatesView()).resp.Close())
      ensures !first ==> View() == old(View()) && GatesView() == old(GatesView())
    {
      if closed {
        return false;
      }
      closed, callbacks, legacyCallbacks := true, [], [];
      var s := subscriberGate.Close();
      var t := responseGate.Close();
      first := true;
    }

    /** `_admit_delivery_locked`. */
    method AdmitDeliveryLocked(e: Event) returns (failure: Option<AdmitFailure>)
      requires Valid()
      modifies subscriberGate, responseGate
      ensures Valid()
      ensures Admitted(GatesView(), failure) == AdmitDelivery(old(GatesView()), e)
    {
      var x := e.sequence;
      var outcome, s, so := subscriberGate.Admit(Admission(EventSubscriber, x), false);
      match outcome
      case DuplicateItem => return Some(Owned);
      case Rejected(code) => return Some(Refused(EventSubscriber, code));
      case Accepted =>
        if !e.isDelta {
          return None;
        }
        var outcome', t, to := responseGate.Admit(Admission(ResponseDelta, x), false);
        match outcome'
        case DuplicateItem => return Some(Owned);
        case Rejected(code) =>
          var w := subscriberGate.WithdrawPending(x);
          return Some(Refused(ResponseDelta, code));
        case Accepted => return None;
    }

    /** The except clause of `emit`. */
    method WithdrawAll(events: seq<Event>)
      requires Valid()
      modifies subscriberGate, responseGate
      ensures Valid()
      ensures GatesView() == RollBack(old(GatesView()), events)
    {
      var i := 0;
      while i < |events|
        invariant 0 <= i <= |events|
        invariant Valid()
        invariant RollBack(GatesView(), events[i..]) == RollBack(old(GatesView()), events)
      {
        assert events[i..][0] == events[i] && events[i..][1..] == events[i + 1..];
        var w := subscriberGate.WithdrawPending(events[i].sequence);
        if events[i].isDelta {
          w := responseGate.WithdrawPending(events[i].sequence);
        }
        i := i + 1;
      }
    }

    /** Call the factories; `None` is the ValueError of a changed sequence. */
    method BuildEvents(r: Request) returns (events: Option<seq<Event>>, dropCount: nat)
      requires Valid()
      ensures dropCount <= |history|
      ensures events.Some? <==> View().SequencesKept(r)
      ensures events.Some? ==> events.value == View().EventsFor(r) && dropCount == View().DropCount(r)
    {
      dropCount := 0;
      var event := r.make(nextSequence);
      if event.sequence != nextSequence {
        return None, 0;
      }
      if |history| >= historyLimit {
        dropCount := |history| + (if r.overflow.Some? then 2 else 1) - historyLimit;
        if r.overflow.Some? {
          var note := r.overflow.value(nextSequence + 1, Some(history[0].sequence),
                                       historyOverflowCount + dropCount);
          if note.sequence != nextSequence + 1 {
            return None, 0;
          }
          return Some([event, note]), dropCount;
        }
      }
      events := Some([event]);
    }

    /** The try block of `emit`, with its except clause. */
    method AdmitAllLocked(events: seq<Event>) returns (failure: Option<AdmitFailure>)
      requires Valid()
      modifies subscriberGate, responseGate
      ensures Valid()
      ensures Admitted(GatesView(), failure) == AdmitAll(old(GatesView()), events, 0)
    {
      var i := 0;
      while i < |events|
        invariant 0 <= i <= |events|
        invariant Valid()
        invariant AdmitAll(GatesView(), events, i) == AdmitAll(old(GatesView()), events, 0)
      {
        failure := AdmitDeliveryLocked(events[i]);
        if failure.Some? {
          if failure.value.Refused? {
            WithdrawAll(events[..i]);
          }
          return;
        }
        i := i + 1;
      }
      failure := None;
    }

    /** The lock section of `emit`; `shouldDispatch` elects the caller to drain. */
    method EmitLocked(r: Request) returns (outcome: EmitOutcome, shouldDispatch: bool)
      requires Valid()
      modifies this, subscriberGate, responseGate
      ensures Valid()
      ensures EmitResult(View(), GatesView(), outcome) == Emit(old(View()), old(GatesView()), r)
      ensures shouldDispatch == (outcome.Emitted? && !old(dispatching))
      ensures callLog == old(callLog)
    {
      shouldDispatch := false;
      if closed {
        rejectedAfterCloseCount := rejectedAfterCloseCount + 1;
        return HubClosed, false;
      }
      var events, dropCount := BuildEvents(r);
      if events.None? {
        return SequenceChanged, false;
      }
      var failure := AdmitAllLocked(events.value);
      if failure.None? {
        outcome := Emitted(events.value[0]);
        shouldDispatch := CommitLocked(r, events.value, dropCount);
      } else if failure.value.Refused? {
        backpressureRejectionCount := backpressureRejectionCount + 1;
        outcome := Backpressured(failure.value.boundary, failure.value.code);
      } else {
        outcome := IdentityOwned;
      }
    }

    /** The accepting tail of `emit`. */
    method CommitLocked(r: Request, events: seq<Event>, dropCount: nat) returns (shouldDispatch: bool)
      requires Valid() && events == View().EventsFor(r) && dropCount == View().DropCount(r)
      modifies this
      ensures Valid()
      ensures View() == old(View()).Commit(old(View()).DeliveriesFor(r), dropCount)
      ensures shouldDispatch == !old(dispatching)
      ensures callLog == old(callLog)
    {
      hide EventsOf, Hub.DeliveryFor, Hub.DeliveriesFor, Hub.EventsFor, Hub.DropCount;
      hide BoundedBackpressureRuntime.Valid;
      ghost var h := View();
      PlanFits(h, r);
      AppendHistory(events, dropCount);
      var deliveries := CaptureDeliveries(r, events);
      CommitIs(h, View(), r, deliveries);
      pending := pending + deliveries;
      shouldDispatch := !dispatching;
      dispatching := true;
    }

    /** The counters, and the history without its oldest `dropCount` entries. */
    method AppendHistory(events: seq<Event>, dropCount: nat)
      requires Valid() && dropCount <= |history| && |history| - dropCount + |events| <= historyLimit
      modifies this`nextSequence, this`emittedEventCount, this`historyOverflowCount, this`history
      ensures Valid()
      ensures View() == old(View()).(next := old(nextSequence) + |events|,
                                     emitted := old(emittedEventCount) + |events|,
                                     overflowed := old(historyOverflowCount) + dropCount,
                                     history := old(history)[dropCount..] + events)
    {
      nextSequence := nextSequence + |events|;
      emittedEventCount := emittedEventCount + |events|;
      historyOverflowCount := historyOverflowCount + dropCount;
      history := history[dropCount..] + events;
    }

    method CaptureDeliveries(r: Request, events: seq<Event>) returns (deliveries: seq<Delivery>)
      requires 1 <= |events| <= 2
      ensures deliveries == [View().DeliveryFor(r, events[0])]
                            + if |events| == 2 then [View().DeliveryFor(r, events[1])] else []
    {
      deliveries := [DeliveryLocked(r, events[0])];
      if |events| == 2 {
        deliveries := deliveries + [DeliveryLocked(r, events[1])];
      }
    }

    function DeliveryLocked(r: Request, e: Event): (d: Delivery)
      reads this
      ensures d == View().DeliveryFor(r, e)
    {
      var legacyEvent := r.project(e);
      Delivery(e, callbacks, legacyEvent, if legacyEvent.Some? then legacyCallbacks else [])
    }

    /** One round of the drain loop after the pop. `drift` is the RuntimeError raised when a
        controller does not hand over the delivery's identity. */
    method DeliverPopped(delivery: Delivery) returns (drift: bool)
      requires Valid()
      modifies this`callLog, subscriberGate, responseGate
      ensures Valid()
      ensures drift == !Claimable(old(GatesView()), delivery)
      ensures !drift ==> GatesView() == Delivered(old(GatesView()), delivery)
      ensures callLog == old(callLog) + if drift then [] else Calls(delivery)
    {
      var x := delivery.event.sequence;
      var claimed := subscriberGate.Claim(x);
      if claimed.None? {
        return true;
      }
      if delivery.event.isDelta {
        claimed := responseGate.Claim(x);
        if claimed.None? {
          var c := subscriberGate.Complete(x);
          return true;
        }
      }
      callLog := callLog + Calls(delivery);
      var done := subscriberGate.Complete(x);
      if delivery.event.isDelta {
        done := responseGate.Complete(x);
      }
      drift := false;
    }

    /** One whole round of the drain loop, starting with the pop. */
    method DrainOne() returns (drift: bool)
      requires Valid() && |pending| > 0 && AtRest(View(), GatesView())
      modifies this`pending, this`callLog, subscriberGate, responseGate
      ensures Valid() && !drift && AtRest(View(), GatesView())
      ensures pending == old(pending)[1..]
      ensures callLog == old(callLog) + Calls(old(pending)[0])
    {
      HeadIsClaimed(pending[0], pending[1..], GatesView());
      var delivery := pending[0];
      assert pending == [delivery] + pending[1..];
      pending := pending[1..];
      drift := DeliverPopped(delivery);
    }

    /** `_drain_deliveries` with callbacks that do not call back into the hub: every queued
        delivery reaches its callbacks, in order, and both claims always succeed. */
    method DrainDeliveries() returns (drift: bool)
      requires Valid() && dispatching && AtRest(View(), GatesView())
      modifies this`pending, this`dispatching, this`callLog, subscriberGate, responseGate
      ensures Valid() && !drift && AtRest(View(), GatesView())
      ensures pending == [] && !dispatching
      ensures callLog == old(callLog) + Flatten(old(pending))
    {
      ghost var all, n: nat := pending, 0;
      while |pending| > 0
        invariant Valid() && AtRest(View(), GatesView())
        invariant n <= |all| && pending == all[n..]
        invariant callLog == old(callLog) + Flatten(all[..n])
      {
        drift := DrainOne();
        if drift {
          return;
        }
        FlattenSnoc(all, n);
        ConcatAssoc(old(callLog), Flatten(all[..n]), Calls(all[n]));
        n := n + 1;
      }
      assert all[..n] == all;
      dispatching, drift := false, false;
    }
  }

  /** What is dropped makes room for exactly what is added, once history is full. */
  lemma PlanFits(h: Hub, r: Request)
    requires 2 <= h.historyLimit && |h.history| <= h.historyLimit
    ensures h.DropCount(r) <= |h.history|
    ensures |h.history| - h.DropCount(r) + |h.EventsFor(r)| <= h.historyLimit
    ensures h.Full() ==> |h.history| - h.DropCount(r) + |h.EventsFor(r)| == h.historyLimit
  {
  }

  /** Deliveries captured one by one from `now`, with the registrations of `h`, are those of
      the request in `h`, and carry its events. */
  lemma CommitIs(h: Hub, now: Hub, r: Request, deliveries: seq<Delivery>)
    requires now.callbacks == h.callbacks && now.legacyCallbacks == h.legacyCallbacks
    requires var events := h.EventsFor(r);
             deliveries == [now.DeliveryFor(r, events[0])]
                           + if |events| == 2 then [now.DeliveryFor(r, events[1])] else []
    ensures deliveries == h.DeliveriesFor(r) && EventsOf(deliveries) == h.EventsFor(r)
  {
    assert EventsOf(deliveries) == h.EventsFor(r);
  }

  /** Both claims for `d` would succeed. */
  ghost predicate Claimable(g: Gates, d: Delivery) {
    g.sub.CanClaim(d.event.sequence) && (d.event.isDelta ==> g.resp.CanClaim(d.event.sequence))
  }

  /** The controllers after `d` was claimed, delivered and completed. */
  ghost function Delivered(g: Gates, d: Delivery): Gates {
    var x := d.event.sequence;
    Gates(g.sub.Claim(x).Complete(x), if d.event.isDelta then g.resp.Claim(x).Complete(x) else g.resp)
  }

  lemma FlattenSnoc(ds: seq<Delivery>, n: nat)
    requires n < |ds|
    ensures Flatten(ds[..n + 1]) == Flatten(ds[..n]) + Calls(ds[n])
  {
    assert ds[..n + 1][..n] == ds[..n];
  }

  /** The oldest queued delivery is at the head of both controllers, so it can be claimed,
      and what stays is the agreement for the others. */
  lemma HeadIsClaimed(d: Delivery, rest: seq<Delivery>, g: Gates)
    requires g.sub.pending == DeliveryIds([d] + rest) && g.sub.inFlight == {} && 1 <= g.sub.maxInFlight
    requires g.resp.pending == DeltaIds([d] + rest) && g.resp.inFlight == {} && 1 <= g.resp.maxInFlight
    ensures Claimable(g, d)
    ensures Delivered(g, d).sub.pending == DeliveryIds(rest) && Delivered(g, d).sub.inFlight == {}
    ensures Delivered(g, d).resp.pending == DeltaIds(rest) && Delivered(g, d).resp.inFlight == {}
  {
    var x := d.event.sequence;
    assert ([d] + rest)[1..] == rest;
    RemoveHead(x, DeliveryIds(rest));
    assert g.sub.pending == [x] + DeliveryIds(rest);
    if d.event.isDelta {
      RemoveHead(x, DeltaIds(rest));
    }
  }
}
