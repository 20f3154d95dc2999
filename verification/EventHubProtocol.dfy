/** Every interleaving of the hub's lock sections. Emitters, closers and registrations
    hold the hub lock; admission controllers have locks of their own, so pause, resume and
    the drainer's claims and completions may fall between any two controller calls of an
    emitter. Callbacks run with no lock held: an `emit`, `close` or registration made from
    inside a callback is the same step as one made by any other thread. */
module EventHubProtocol {
  import opened Common
  import opened Backpressure
  import opened BackpressureRuntime
  import opened EventHub

  /** The records one emit wants accepted, as the factories and the projector made them
      under the lock, and how many history entries they displace. */
  datatype Plan = Plan(ds: seq<Delivery>, drop: nat)

  /** Who holds the hub lock, and how far that section has come. `half` marks a response
      delta whose subscriber controller has been dealt with and whose response controller
      has not. */
  datatype Lock =
    | Free
    | Admitting(plan: Plan, done: nat, half: bool)
    | HalfUndo(plan: Plan, done: nat)
    | Undoing(plan: Plan, upto: nat, at: nat, half: bool)
    | ClosingSub
    | ClosingResp
    | DuplicateRaised

  /** One activation of the drain loop. */
  datatype Drain =
    | AtTop
    | Popped(d: Delivery)
    | ClaimedSub(d: Delivery)
    | Calling(d: Delivery, made: nat)
    | CompletedSub(d: Delivery)
    | Drifted

  /** `accepted` lists every delivery ever accepted, `log` every callback invocation made. */
  datatype Sys = Sys(
    hub: Hub,
    sub: Controller,
    resp: Controller,
    lock: Lock,
    drainers: seq<Drain>,
    accepted: seq<Delivery>,
    log: seq<Call>)

  datatype Label =
    | EmitBegin(r: Request)
    | AdmitSub
    | AdmitResp
    | UndoHalf
    | UndoSub
    | UndoResp
    | UndoEnd
    | CommitEmit
    | CloseBegin
    | CloseSub
    | CloseResp
    | Subscribe(t: Token, legacy: bool)
    | Unsubscribe(t: Token)
    | Flow(boundary: Boundary, kind: ControlKind)
    | Pop(k: nat)
    | ClaimSub(k: nat)
    | ClaimResp(k: nat)
    | CallNext(k: nat)
    | CompleteSub(k: nat)
    | CompleteResp(k: nat)

  /** Factories that keep their sequence, and a projector that keeps the sequence. */
  ghost predicate ValidRequest(r: Request) {
    && (forall n: nat :: r.make(n).sequence == n)
    && (r.overflow.Some? ==>
          forall n: nat, first: Option<nat>, count: nat :: r.overflow.value(n, first, count).sequence == n)
    && (forall e: Event :: r.project(e).Some? ==> r.project(e).value.sequence == e.sequence)
  }

  ghost predicate Enabled(s: Sys, l: Label) {
    match l
    case EmitBegin(r) => s.lock.Free? && ValidRequest(r)
    case AdmitSub => s.lock.Admitting? && !s.lock.half && s.lock.done < |s.lock.plan.ds|
    case AdmitResp => s.lock.Admitting? && s.lock.half && s.lock.done < |s.lock.plan.ds|
    case UndoHalf => s.lock.HalfUndo? && s.lock.done < |s.lock.plan.ds|
    case UndoSub => s.lock.Undoing? && !s.lock.half && s.lock.at < s.lock.upto <= |s.lock.plan.ds|
    case UndoResp => s.lock.Undoing? && s.lock.half && s.lock.at < s.lock.upto <= |s.lock.plan.ds|
    case UndoEnd => s.lock.Undoing? && !s.lock.half && s.lock.at == s.lock.upto
    case CommitEmit =>
      && s.lock.Admitting? && !s.lock.half && s.lock.done == |s.lock.plan.ds|
      && s.lock.plan.drop <= |s.hub.history|
    case CloseBegin => s.lock.Free?
    case CloseSub => s.lock.ClosingSub?
    case CloseResp => s.lock.ClosingResp?
    case Subscribe(t, _) => s.lock.Free? && t !in s.hub.callbacks + s.hub.legacyCallbacks
    case Unsubscribe(_) => s.lock.Free?
    case Flow(b, _) => b == EventSubscriber || b == ResponseDelta
    case Pop(k) => s.lock.Free? && k < |s.drainers| && s.drainers[k].AtTop?
    case ClaimSub(k) => k < |s.drainers| && s.drainers[k].Popped?
    case ClaimResp(k) => k < |s.drainers| && s.drainers[k].ClaimedSub?
    case CallNext(k) =>
      k < |s.drainers| && s.drainers[k].Calling? && s.drainers[k].made < |Calls(s.drainers[k].d)|
    case CompleteSub(k) =>
      k < |s.drainers| && s.drainers[k].Calling? && s.drainers[k].made == |Calls(s.drainers[k].d)|
    case CompleteResp(k) => k < |s.drainers| && s.drainers[k].CompletedSub?
  }

  ghost function Apply(s: Sys, l: Label): Sys
    requires Enabled(s, l)
  {
    match l
    case EmitBegin(r) =>
      if s.hub.closed then s.(hub := s.hub.(rejectedClosed := s.hub.rejectedClosed + 1))
      else s.(lock := Admitting(Plan(s.hub.DeliveriesFor(r), s.hub.DropCount(r)), 0, false))
    case AdmitSub => ApplyAdmitSub(s)
    case AdmitResp => ApplyAdmitResp(s)
    case UndoHalf =>
      s.(sub := s.sub.Withdraw(s.lock.plan.ds[s.lock.done].event.sequence),
         lock := Undoing(s.lock.plan, s.lock.done, 0, false))
    case UndoSub =>
      var d := s.lock.plan.ds[s.lock.at];
      s.(sub := s.sub.Withdraw(d.event.sequence),
         lock := if d.event.isDelta then Undoing(s.lock.plan, s.lock.upto, s.lock.at, true)
                 else Undoing(s.lock.plan, s.lock.upto, s.lock.at + 1, false))
    case UndoResp =>
      s.(resp := s.resp.Withdraw(s.lock.plan.ds[s.lock.at].event.sequence),
         lock := Undoing(s.lock.plan, s.lock.upto, s.lock.at + 1, false))
    case UndoEnd => s.(hub := s.hub.(rejectedFull := s.hub.rejectedFull + 1), lock := Free)
    case CommitEmit =>
      s.(hub := s.hub.Commit(s.lock.plan.ds, s.lock.plan.drop),
         lock := Free,
         drainers := if s.hub.dispatching then s.drainers else s.drainers + [AtTop],
         accepted := s.accepted + s.lock.plan.ds)
    case CloseBegin =>
      if s.hub.closed then s
      else s.(hub := s.hub.(closed := true, callbacks := [], legacyCallbacks := []), lock := ClosingSub)
    case CloseSub => s.(sub := s.sub.Close(), lock := ClosingResp)
    case CloseResp => s.(resp := s.resp.Close(), lock := Free)
    case Subscribe(t, legacy) =>
      if s.hub.closed then s
      else if legacy then s.(hub := s.hub.(legacyCallbacks := s.hub.legacyCallbacks + [t]))
      else s.(hub := s.hub.(callbacks := s.hub.callbacks + [t]))
    case Unsubscribe(t) =>
      s.(hub := s.hub.(callbacks := RemoveFirst(s.hub.callbacks, t),
                       legacyCallbacks := RemoveFirst(s.hub.legacyCallbacks, t)))
    case Flow(b, kind) =>
      if b == EventSubscriber then s.(sub := s.sub.Control(kind)) else s.(resp := s.resp.Control(kind))
    case Pop(k) =>
      if s.hub.pending == []
      then s.(hub := s.hub.(dispatching := false), drainers := s.drainers[..k] + s.drainers[k + 1..])
      else s.(hub := s.hub.(pending := s.hub.pending[1..]),
              drainers := s.drainers[k := Popped(s.hub.pending[0])])
    case ClaimSub(k) =>
      var d := s.drainers[k].d;
      if !s.sub.CanClaim(d.event.sequence) then s.(drainers := s.drainers[k := Drifted])
      else s.(sub := s.sub.Claim(d.event.sequence),
              drainers := s.drainers[k := if d.event.isDelta then ClaimedSub(d) else Calling(d, 0)])
    case ClaimResp(k) =>
      var d := s.drainers[k].d;
      if !s.resp.CanClaim(d.event.sequence)
      then s.(sub := s.sub.Complete(d.event.sequence), drainers := s.drainers[k := Drifted])
      else s.(resp := s.resp.Claim(d.event.sequence), drainers := s.drainers[k := Calling(d, 0)])
    case CallNext(k) =>
      var p := s.drainers[k];
      s.(log := s.log + [Calls(p.d)[p.made]], drainers := s.drainers[k := Calling(p.d, p.made + 1)])
    case CompleteSub(k) =>
      var d := s.drainers[k].d;
      s.(sub := s.sub.Complete(d.event.sequence),
         drainers := s.drainers[k := if d.event.isDelta then CompletedSub(d) else AtTop])
    case CompleteResp(k) =>
      s.(resp := s.resp.Complete(s.drainers[k].d.event.sequence), drainers := s.drainers[k := AtTop])
  }

  ghost function ApplyAdmitSub(s: Sys): Sys
    requires Enabled(s, AdmitSub)
  {
    var e := s.lock.plan.ds[s.lock.done].event;
    match s.sub.AdmitOutcomeOf(e.sequence, false)
    case DuplicateItem => s.(lock := DuplicateRaised)
    case Rejected(_) =>
      s.(sub := s.sub.Admit(e.sequence, false), lock := Undoing(s.lock.plan, s.lock.done, 0, false))
    case Accepted =>
      s.(sub := s.sub.Admit(e.sequence, false),
         lock := if e.isDelta then Admitting(s.lock.plan, s.lock.done, true)
                 else Admitting(s.lock.plan, s.lock.done + 1, false))
  }

  ghost function ApplyAdmitResp(s: Sys): Sys
    requires Enabled(s, AdmitResp)
  {
    var e := s.lock.plan.ds[s.lock.done].event;
    match s.resp.AdmitOutcomeOf(e.sequence, false)
    case DuplicateItem => s.(lock := DuplicateRaised)
    case Rejected(_) => s.(resp := s.resp.Admit(e.sequence, false), lock := HalfUndo(s.lock.plan, s.lock.done))
    case Accepted =>
      s.(resp := s.resp.Admit(e.sequence, false), lock := Admitting(s.lock.plan, s.lock.done + 1, false))
  }

  ghost function Initial(historyLimit: nat, pendingLimit: nat): Sys {
    Sys(Hub(historyLimit, 1, [], [], [], [], false, false, 0, 0, 0, 0),
        Controller(pendingLimit, 1, Accepting, [], {}, 0),
        Controller(pendingLimit, 1, Accepting, [], {}, 0),
        Free, [], [], [])
  }

  // --------------------------------------------------------------- invariant

  ghost function Phase(drainers: seq<Drain>): Drain {
    if |drainers| == 1 then drainers[0] else AtTop
  }

  /** Deliveries popped from the hub whose identity a controller still has pending. */
  ghost function SubPopped(p: Drain): seq<Delivery> { if p.Popped? then [p.d] else [] }

  ghost function RespPopped(p: Drain): seq<Delivery> {
    if p.Popped? || p.ClaimedSub? then [p.d] else []
  }

  ghost function SubHeld(p: Drain): set<ItemId> {
    if p.ClaimedSub? || p.Calling? then {p.d.event.sequence} else {}
  }

  ghost function RespHeld(p: Drain): set<ItemId> {
    if (p.Calling? || p.CompletedSub?) && p.d.event.isDelta then {p.d.event.sequence} else {}
  }

  /** Deliveries of an unfinished emit that a controller has admitted and not withdrawn. */
  ghost function SubExtra(lock: Lock): seq<Delivery> {
    match lock
    case Admitting(plan, done, half) => Slice(plan.ds, 0, if half then done + 1 else done)
    case HalfUndo(plan, done) => Slice(plan.ds, 0, done + 1)
    case Undoing(plan, upto, at, half) => Slice(plan.ds, if half then at + 1 else at, upto)
    case _ => []
  }

  ghost function RespExtra(lock: Lock): seq<Delivery> {
    match lock
    case Admitting(plan, done, _) => Slice(plan.ds, 0, done)
    case HalfUndo(plan, done) => Slice(plan.ds, 0, done)
    case Undoing(plan, upto, at, _) => Slice(plan.ds, at, upto)
    case _ => []
  }

  ghost function Slice(ds: seq<Delivery>, lo: nat, hi: nat): seq<Delivery> {
    if lo <= hi <= |ds| then ds[lo..hi] else []
  }

  /** The records in progress carry the next sequences, fit the history once the planned
      entries are dropped, and are addressed to whoever is registered. */
  ghost predicate PlanInv(hub: Hub, plan: Plan) {
    && !hub.closed
    && (forall j :: 0 <= j < |plan.ds| ==>
          && plan.ds[j].event.sequence == hub.next + j
          && AddressedNow(hub, plan.ds[j])
          && WellAddressed(plan.ds[j]))
    && plan.drop <= |hub.history|
    && |hub.history| - plan.drop + |plan.ds| <= hub.historyLimit
    && (if hub.Full() then |hub.history| - plan.drop + |plan.ds| == hub.historyLimit
        else plan.drop == 0 && |plan.ds| == 1)
  }

  ghost predicate AddressedNow(hub: Hub, d: Delivery) {
    && d.callbacks == hub.callbacks
    && d.legacyCallbacks == if d.legacyEvent.Some? then hub.legacyCallbacks else []
  }

  ghost predicate LockInv(hub: Hub, lock: Lock) {
    match lock
    case Free => true
    case Admitting(plan, done, half) =>
      && PlanInv(hub, plan) && done <= |plan.ds|
      && (half ==> done < |plan.ds| && plan.ds[done].event.isDelta)
    case HalfUndo(plan, done) =>
      PlanInv(hub, plan) && done < |plan.ds| && plan.ds[done].event.isDelta
    case Undoing(plan, upto, at, half) =>
      && PlanInv(hub, plan) && at <= upto < |plan.ds|
      && (half ==> at < upto && plan.ds[at].event.isDelta)
    case ClosingSub => hub.closed
    case ClosingResp => hub.closed
    case DuplicateRaised => false
  }

  /** At most one drainer, it has never drifted, and queued work implies there is one. */
  ghost predicate DrainInv(hub: Hub, drainers: seq<Drain>) {
    && |drainers| == (if hub.dispatching then 1 else 0)
    && (hub.pending != [] ==> hub.dispatching)
    && (forall p :: p in drainers ==> !p.Drifted?)
  }

  /** The controllers have one limit, and are closed once the closer got to them. */
  ghost predicate CloseInv(hub: Hub, sub: Controller, resp: Controller, lock: Lock) {
    && sub.maxPending == resp.maxPending
    && (sub.state == Closed <==> hub.closed && !lock.ClosingSub?)
    && (resp.state == Closed <==> hub.closed && !lock.ClosingSub? && !lock.ClosingResp?)
  }

  /** The accepted deliveries carry 1, 2, 3, ...; the history is a suffix of them. */
  ghost predicate HistoryInv(hub: Hub, accepted: seq<Delivery>) {
    && hub.next == |accepted| + 1
    && hub.emitted == |accepted|
    && (forall i :: 0 <= i < |accepted| ==> accepted[i].event.sequence == i + 1)
    && hub.overflowed <= |accepted|
    && hub.history == EventsOf(accepted[hub.overflowed..])
    && 2 <= hub.historyLimit
    && |hub.history| <= hub.historyLimit
  }

  /** How many deliveries the drainer has taken off the queue. */
  ghost function Taken(pending: seq<Delivery>, accepted: seq<Delivery>): nat
    requires |pending| <= |accepted|
  {
    |accepted| - |pending|
  }

  /** The queue is the rest of the accepted deliveries, the drainer holds the last one it
      took, and the log is the calls of the ones it finished and its part of the current. */
  ghost predicate LogInv(pending: seq<Delivery>, p: Drain, accepted: seq<Delivery>, log: seq<Call>) {
    && |pending| <= |accepted|
    && pending == accepted[Taken(pending, accepted)..]
    && match p
       case AtTop => log == Flatten(accepted[..Taken(pending, accepted)])
       case Popped(d) => Current(d, pending, accepted) && log == Flatten(accepted[..Taken(pending, accepted) - 1])
       case ClaimedSub(d) =>
         && Current(d, pending, accepted) && d.event.isDelta
         && log == Flatten(accepted[..Taken(pending, accepted) - 1])
       case Calling(d, made) =>
         && Current(d, pending, accepted) && made <= |Calls(d)|
         && log == Flatten(accepted[..Taken(pending, accepted) - 1]) + Calls(d)[..made]
       case CompletedSub(d) =>
         && Current(d, pending, accepted) && d.event.isDelta
         && log == Flatten(accepted[..Taken(pending, accepted)])
       case Drifted => true
  }

  ghost predicate Current(d: Delivery, pending: seq<Delivery>, accepted: seq<Delivery>) {
    |pending| < |accepted| && d == accepted[Taken(pending, accepted) - 1]
  }

  ghost predicate SubInv(sub: Controller, p: Drain, pending: seq<Delivery>, extra: seq<Delivery>) {
    && sub.Inv()
    && sub.maxInFlight == 1
    && sub.inFlight == SubHeld(p)
    && sub.pending == DeliveryIds(SubPopped(p) + pending + extra)
  }

  ghost predicate RespInv(resp: Controller, p: Drain, pending: seq<Delivery>, extra: seq<Delivery>) {
    && resp.Inv()
    && resp.maxInFlight == 1
    && resp.inFlight == RespHeld(p)
    && resp.pending == DeltaIds(RespPopped(p) + pending + extra)
  }

  /** Registrations are distinct, now and in every snapshot; legacy projections keep the
      sequence of their event. */
  ghost predicate AddressInv(hub: Hub, accepted: seq<Delivery>) {
    && Distinct(hub.callbacks + hub.legacyCallbacks)
    && forall d :: d in accepted ==> WellAddressed(d)
  }

  ghost predicate WellAddressed(d: Delivery) {
    && Distinct(d.callbacks + d.legacyCallbacks)
    && (d.legacyEvent.Some? ==> d.legacyEvent.value.sequence == d.event.sequence)
  }

  /** What the hub lock protects, and what the drainer has made of it. */
  ghost predicate HubInv(hub: Hub, drainers: seq<Drain>, accepted: seq<Delivery>, log: seq<Call>) {
    && DrainInv(hub, drainers)
    && HistoryInv(hub, accepted)
    && AddressInv(hub, accepted)
    && LogInv(hub.pending, Phase(drainers), accepted, log)
  }

  ghost predicate Inv(s: Sys) {
    && HubInv(s.hub, s.drainers, s.accepted, s.log)
    && LockInv(s.hub, s.lock)
    && CloseInv(s.hub, s.sub, s.resp, s.lock)
    && SubInv(s.sub, Phase(s.drainers), s.hub.pending, SubExtra(s.lock))
    && RespInv(s.resp, Phase(s.drainers), s.hub.pending, RespExtra(s.lock))
  }

  // ----------------------------------------------------------- queue algebra

  lemma QueueAppend(q: seq<Delivery>, d: Delivery)
    ensures DeliveryIds(q + [d]) == DeliveryIds(q) + [d.event.sequence]
    ensures DeltaIds(q + [d]) == DeltaIds(q) + if d.event.isDelta then [d.event.sequence] else []
  {
    DeltaIdsConcat(q, [d]);
    assert [d][1..] == [];
    assert DeltaIds([d]) == (if d.event.isDelta then [d.event.sequence] else []) + DeltaIds([]);
  }

  lemma QueueRemove(a: seq<Delivery>, d: Delivery, b: seq<Delivery>)
    requires forall e :: e in a ==> e.event.sequence != d.event.sequence
    ensures RemoveFirst(DeliveryIds(a + [d] + b), d.event.sequence) == DeliveryIds(a + b)
    ensures d.event.isDelta ==> RemoveFirst(DeltaIds(a + [d] + b), d.event.sequence) == DeltaIds(a + b)
    ensures !d.event.isDelta ==> DeltaIds(a + [d] + b) == DeltaIds(a + b)
  {
    var x := d.event.sequence;
    assert DeliveryIds(a + [d] + b) == DeliveryIds(a) + [x] + DeliveryIds(b);
    assert DeliveryIds(a + b) == DeliveryIds(a) + DeliveryIds(b);
    assert x !in DeliveryIds(a);
    RemoveFirstAt(DeliveryIds(a), x, DeliveryIds(b));
    DeltaIdsConcat(a + [d], b);
    QueueAppend(a, d);
    DeltaIdsConcat(a, b);
    DeltaIdsBound(a);
    if d.event.isDelta { RemoveFirstAt(DeltaIds(a), x, DeltaIds(b)); }
  }

  /** `d` is owned by no controller on behalf of the deliveries `q` or the drainer. */
  ghost predicate NewTo(d: Delivery, q: seq<Delivery>, held: set<ItemId>) {
    (forall e :: e in q ==> e.event.sequence != d.event.sequence) && d.event.sequence !in held
  }

  lemma SubAdmits(sub: Controller, p: Drain, pending: seq<Delivery>, extra: seq<Delivery>, d: Delivery)
    requires SubInv(sub, p, pending, extra) && NewTo(d, SubPopped(p) + pending + extra, SubHeld(p))
    ensures sub.AdmitOutcomeOf(d.event.sequence, false) != DuplicateItem
    ensures SubInv(sub.Admit(d.event.sequence, false), p, pending,
                   if sub.AdmitOutcomeOf(d.event.sequence, false) == Accepted then extra + [d] else extra)
    ensures sub.Admit(d.event.sequence, false).state == sub.state
  {
    var q := SubPopped(p) + pending;
    assert d.event.sequence !in DeliveryIds(q + extra);
    AdmitKeepsInv(sub, d.event.sequence, false);
    QueueAppend(q + extra, d);
    ConcatAssoc(q, extra, [d]);
  }

  lemma RespAdmits(resp: Controller, p: Drain, pending: seq<Delivery>, extra: seq<Delivery>, d: Delivery)
    requires RespInv(resp, p, pending, extra) && NewTo(d, RespPopped(p) + pending + extra, RespHeld(p))
    ensures d.event.isDelta ==>
              && resp.AdmitOutcomeOf(d.event.sequence, false) != DuplicateItem
              && RespInv(resp.Admit(d.event.sequence, false), p, pending,
                         if resp.AdmitOutcomeOf(d.event.sequence, false) == Accepted then extra + [d] else extra)
    ensures !d.event.isDelta ==> RespInv(resp, p, pending, extra + [d])
    ensures resp.Admit(d.event.sequence, false).state == resp.state
  {
    var q := RespPopped(p) + pending;
    DeltaIdsBound(q + extra);
    assert d.event.sequence !in DeltaIds(q + extra);
    AdmitKeepsInv(resp, d.event.sequence, false);
    QueueAppend(q + extra, d);
    ConcatAssoc(q, extra, [d]);
  }

  lemma SubWithdraws(sub: Controller, p: Drain, pending: seq<Delivery>, a: seq<Delivery>, d: Delivery, b: seq<Delivery>)
    requires SubInv(sub, p, pending, a + [d] + b) && NewTo(d, SubPopped(p) + pending + a, SubHeld(p))
    ensures SubInv(sub.Withdraw(d.event.sequence), p, pending, a + b)
  {
    hide DeliveryIds, Controller.Inv, SubHeld;
    var q := SubPopped(p) + pending;
    QueueRemove(q + a, d, b);
    assert q + (a + [d] + b) == q + a + [d] + b;
    assert q + (a + b) == q + a + b;
    WithdrawKeepsInv(sub, d.event.sequence);
  }

  lemma RespWithdraws(resp: Controller, p: Drain, pending: seq<Delivery>, a: seq<Delivery>, d: Delivery,
                      b: seq<Delivery>)
    requires RespInv(resp, p, pending, a + [d] + b) && NewTo(d, RespPopped(p) + pending + a, RespHeld(p))
    ensures d.event.isDelta ==> RespInv(resp.Withdraw(d.event.sequence), p, pending, a + b)
    ensures !d.event.isDelta ==> RespInv(resp, p, pending, a + b)
  {
    hide DeltaIds, Controller.Inv, RespHeld;
    var q := RespPopped(p) + pending;
    QueueRemove(q + a, d, b);
    assert q + (a + [d] + b) == q + a + [d] + b;
    assert q + (a + b) == q + a + b;
    WithdrawKeepsInv(resp, d.event.sequence);
  }

  // ------------------------------------------------------------- emit's steps

  /** Everything owned on behalf of accepted deliveries lies below the next sequence, so a
      record in progress is new to both controllers. */
  lemma PlannedIsNew(s: Sys, plan: Plan, j: nat, lo: nat, hi: nat)
    requires HubInv(s.hub, s.drainers, s.accepted, s.log) && PlanInv(s.hub, plan) && j < |plan.ds|
    requires hi <= j || j < lo
    ensures var p, extra := Phase(s.drainers), Slice(plan.ds, lo, hi);
            && NewTo(plan.ds[j], SubPopped(p) + s.hub.pending + extra, SubHeld(p))
            && NewTo(plan.ds[j], RespPopped(p) + s.hub.pending + extra, RespHeld(p))
  {
    hide HubInv, AddressedNow, WellAddressed;
    QueuedIsOld(s);
    var p := Phase(s.drainers);
    assert forall d :: d in Slice(plan.ds, lo, hi) ==> d.event.sequence != plan.ds[j].event.sequence;
  }

  /** What is queued or in the drainer's hands was accepted before. */
  lemma QueuedIsOld(s: Sys)
    requires HubInv(s.hub, s.drainers, s.accepted, s.log)
    ensures var p := Phase(s.drainers);
            && (forall d :: d in SubPopped(p) + s.hub.pending ==> d.event.sequence < s.hub.next)
            && (forall d :: d in RespPopped(p) + s.hub.pending ==> d.event.sequence < s.hub.next)
            && (forall x :: x in SubHeld(p) ==> x < s.hub.next) && (forall x :: x in RespHeld(p) ==> x < s.hub.next)
  {
    hide AddressInv, DrainInv, Flatten, Calls, EventsOf, Phase;
    assert forall d :: d in s.accepted ==> d.event.sequence < s.hub.next;
    var p := Phase(s.drainers);
    assert forall d :: d in s.hub.pending ==> d in s.accepted;
    assert !p.AtTop? && !p.Drifted? ==> p.d in s.accepted;
  }

  lemma AdmitSubKeepsInv(s: Sys)
    requires Inv(s) && Enabled(s, AdmitSub)
    ensures Inv(Apply(s, AdmitSub))
  {
    hide HubInv, SubInv, RespInv, PlanInv, NewTo;
    var plan, done, p := s.lock.plan, s.lock.done, Phase(s.drainers);
    PlannedIsNew(s, plan, done, 0, done);
    SubAdmits(s.sub, p, s.hub.pending, SubExtra(s.lock), plan.ds[done]);
    RespAdmits(s.resp, p, s.hub.pending, RespExtra(s.lock), plan.ds[done]);
    assert plan.ds[0..done + 1] == plan.ds[0..done] + [plan.ds[done]];
  }

  lemma AdmitRespKeepsInv(s: Sys)
    requires Inv(s) && Enabled(s, AdmitResp)
    ensures Inv(Apply(s, AdmitResp))
  {
    hide HubInv, SubInv, RespInv, PlanInv, NewTo;
    var plan, done, p := s.lock.plan, s.lock.done, Phase(s.drainers);
    PlannedIsNew(s, plan, done, 0, done);
    RespAdmits(s.resp, p, s.hub.pending, RespExtra(s.lock), plan.ds[done]);
    assert plan.ds[0..done + 1] == plan.ds[0..done] + [plan.ds[done]];
  }

  lemma UndoHalfKeepsInv(s: Sys)
    requires Inv(s) && Enabled(s, UndoHalf)
    ensures Inv(Apply(s, UndoHalf))
  {
    hide HubInv, SubInv, RespInv, PlanInv, NewTo;
    var plan, done, p := s.lock.plan, s.lock.done, Phase(s.drainers);
    PlannedIsNew(s, plan, done, 0, done);
    assert plan.ds[0..done + 1] == plan.ds[0..done] + [plan.ds[done]] + [];
    assert plan.ds[0..done] + [] == plan.ds[0..done];
    SubWithdraws(s.sub, p, s.hub.pending, plan.ds[0..done], plan.ds[done], []);
  }

  lemma SliceHead(ds: seq<Delivery>, lo: nat, hi: nat)
    requires lo < hi <= |ds|
    ensures Slice(ds, lo, hi) == [] + [ds[lo]] + Slice(ds, lo + 1, hi)
    ensures [] + Slice(ds, lo + 1, hi) == Slice(ds, lo + 1, hi)
  {
  }

  lemma UndoFirst(s: Sys, plan: Plan, at: nat, upto: nat)
    requires HubInv(s.hub, s.drainers, s.accepted, s.log) && PlanInv(s.hub, plan) && at < upto <= |plan.ds|
    ensures SubInv(s.sub, Phase(s.drainers), s.hub.pending, Slice(plan.ds, at, upto)) ==>
              SubInv(s.sub.Withdraw(plan.ds[at].event.sequence), Phase(s.drainers), s.hub.pending,
                     Slice(plan.ds, at + 1, upto))
    ensures RespInv(s.resp, Phase(s.drainers), s.hub.pending, Slice(plan.ds, at, upto)) ==>
              RespInv(if plan.ds[at].event.isDelta then s.resp.Withdraw(plan.ds[at].event.sequence) else s.resp,
                      Phase(s.drainers), s.hub.pending, Slice(plan.ds, at + 1, upto))
  {
    hide HubInv, SubInv, RespInv, PlanInv, NewTo, Controller.Withdraw;
    var p, rest := Phase(s.drainers), Slice(plan.ds, at + 1, upto);
    PlannedIsNew(s, plan, at, at, at);
    assert Slice(plan.ds, at, at) == [];
    SliceHead(plan.ds, at, upto);
    if SubInv(s.sub, p, s.hub.pending, Slice(plan.ds, at, upto)) {
      SubWithdraws(s.sub, p, s.hub.pending, [], plan.ds[at], rest);
    }
    if RespInv(s.resp, p, s.hub.pending, Slice(plan.ds, at, upto)) {
      RespWithdraws(s.resp, p, s.hub.pending, [], plan.ds[at], rest);
    }
  }

  lemma UndoSubKeepsInv(s: Sys)
    requires Inv(s) && Enabled(s, UndoSub)
    ensures Inv(Apply(s, UndoSub))
  {
    hide HubInv, SubInv, RespInv, PlanInv, Slice, RemoveFirst;
    UndoFirst(s, s.lock.plan, s.lock.at, s.lock.upto);
  }

  lemma UndoRespKeepsInv(s: Sys)
    requires Inv(s) && Enabled(s, UndoResp)
    ensures Inv(Apply(s, UndoResp))
  {
    hide HubInv, SubInv, RespInv, PlanInv, Slice, RemoveFirst;
    UndoFirst(s, s.lock.plan, s.lock.at, s.lock.upto);
  }

  lemma EmitBeginKeepsInv(s: Sys, r: Request)
    requires Inv(s) && Enabled(s, EmitBegin(r))
    ensures Inv(Apply(s, EmitBegin(r)))
  {
    hide SubInv, RespInv, LogInv;
    if !s.hub.closed {
      var plan := Plan(s.hub.DeliveriesFor(r), s.hub.DropCount(r));
      PlanIsGood(s.hub, s.accepted, r);
      assert Slice(plan.ds, 0, 0) == [];
    }
  }

  lemma PlanIsGood(hub: Hub, accepted: seq<Delivery>, r: Request)
    requires HistoryInv(hub, accepted) && AddressInv(hub, accepted) && ValidRequest(r) && !hub.closed
    ensures PlanInv(hub, Plan(hub.DeliveriesFor(r), hub.DropCount(r)))
  {
    var ds := hub.DeliveriesFor(r);
    PlanFits(hub, r);
    forall j | 0 <= j < |ds|
      ensures ds[j].event.sequence == hub.next + j && AddressedNow(hub, ds[j]) && WellAddressed(ds[j])
    {
      var d := ds[j];
      assert d == hub.DeliveryFor(r, hub.EventsFor(r)[j]);
      assert d.callbacks + d.legacyCallbacks <= hub.callbacks + hub.legacyCallbacks;
    }
  }

  lemma UndoEndKeepsInv(s: Sys)
    requires Inv(s) && Enabled(s, UndoEnd)
    ensures Inv(Apply(s, UndoEnd))
  {
    hide SubInv, RespInv, LogInv;
    assert Slice(s.lock.plan.ds, s.lock.at, s.lock.upto) == [];
  }

  lemma CommitKeepsHistory(hub: Hub, accepted: seq<Delivery>, plan: Plan)
    requires HistoryInv(hub, accepted) && AddressInv(hub, accepted) && PlanInv(hub, plan)
    ensures HistoryInv(hub.Commit(plan.ds, plan.drop), accepted + plan.ds)
    ensures AddressInv(hub.Commit(plan.ds, plan.drop), accepted + plan.ds)
  {
    hide WellAddressed, AddressedNow;
    CommittedHistory(hub, accepted, plan);
    hide HistoryInv;
    PlannedAreAddressed(hub, plan);
  }

  lemma PlannedAreAddressed(hub: Hub, plan: Plan)
    requires PlanInv(hub, plan)
    ensures forall d :: d in plan.ds ==> WellAddressed(d)
  {
    hide WellAddressed, AddressedNow;
  }

  lemma CommittedHistory(hub: Hub, accepted: seq<Delivery>, plan: Plan)
    requires HistoryInv(hub, accepted) && PlanInv(hub, plan)
    ensures HistoryInv(hub.Commit(plan.ds, plan.drop), accepted + plan.ds)
  {
    hide WellAddressed, AddressedNow;
    var all, n := accepted + plan.ds, hub.overflowed;
    assert accepted[n..][plan.drop..] == accepted[n + plan.drop..];
    assert all[n + plan.drop..] == accepted[n + plan.drop..] + plan.ds;
    assert hub.history[plan.drop..] == EventsOf(accepted[n + plan.drop..]);
  }

  lemma CommitKeepsLog(pending: seq<Delivery>, p: Drain, accepted: seq<Delivery>, log: seq<Call>, ds: seq<Delivery>)
    requires LogInv(pending, p, accepted, log)
    ensures LogInv(pending + ds, p, accepted + ds, log)
  {
    var n := Taken(pending, accepted);
    assert (accepted + ds)[n..] == accepted[n..] + ds;
    assert (accepted + ds)[..n] == accepted[..n];
    if n > 0 { assert (accepted + ds)[..n - 1] == accepted[..n - 1]; }
  }

  lemma CommitKeepsQueues(s: Sys, ds: seq<Delivery>)
    requires SubInv(s.sub, Phase(s.drainers), s.hub.pending, ds)
    requires RespInv(s.resp, Phase(s.drainers), s.hub.pending, ds)
    ensures SubInv(s.sub, Phase(s.drainers), s.hub.pending + ds, [])
    ensures RespInv(s.resp, Phase(s.drainers), s.hub.pending + ds, [])
  {
    var p := Phase(s.drainers);
    assert SubPopped(p) + s.hub.pending + ds == SubPopped(p) + (s.hub.pending + ds) + [];
    assert RespPopped(p) + s.hub.pending + ds == RespPopped(p) + (s.hub.pending + ds) + [];
  }

  lemma CommitKeepsInv(s: Sys)
    requires Inv(s) && Enabled(s, CommitEmit)
    ensures Inv(Apply(s, CommitEmit))
  {
    hide SubInv, RespInv, LogInv, HistoryInv, AddressInv, PlanInv;
    var plan := s.lock.plan;
    assert Slice(plan.ds, 0, |plan.ds|) == plan.ds;
    CommitKeepsHistory(s.hub, s.accepted, plan);
    CommitKeepsLog(s.hub.pending, Phase(s.drainers), s.accepted, s.log, plan.ds);
    CommitKeepsQueues(s, plan.ds);
  }

  // -------------------------------------------------- close and registrations

  lemma CloseKeepsInv(s: Sys, l: Label)
    requires Inv(s) && Enabled(s, l) && (l.CloseBegin? || l.CloseSub? || l.CloseResp?)
    ensures Inv(Apply(s, l))
  {
    hide LogInv, HistoryInv, AddressInv, SubInv, RespInv;
    ClosedQueues(s);
    if l.CloseBegin? { NobodyRegistered(s.hub, s.accepted); }
  }

  lemma ClosedQueues(s: Sys)
    requires Inv(s)
    ensures SubInv(s.sub.Close(), Phase(s.drainers), s.hub.pending, SubExtra(s.lock))
    ensures RespInv(s.resp.Close(), Phase(s.drainers), s.hub.pending, RespExtra(s.lock))
  {
    hide HubInv, LockInv, DeliveryIds, DeltaIds;
  }

  lemma NobodyRegistered(hub: Hub, accepted: seq<Delivery>)
    requires HistoryInv(hub, accepted) && AddressInv(hub, accepted)
    ensures var h := hub.(closed := true, callbacks := [], legacyCallbacks := []);
            HistoryInv(h, accepted) && AddressInv(h, accepted)
  {
  }

  lemma FlowKeepsInv(s: Sys, b: Boundary, kind: ControlKind)
    requires Inv(s) && Enabled(s, Flow(b, kind))
    ensures Inv(Apply(s, Flow(b, kind)))
  {
    hide HubInv, LockInv, DeliveryIds, DeltaIds;
  }

  lemma DistinctInsert(a: seq<Token>, t: Token, b: seq<Token>)
    requires Distinct(a + b) && t !in a + b
    ensures Distinct(a + [t] + b)
  {
    var w := a + [t] + b;
    assert forall i :: 0 <= i < |w| && i != |a| ==> w[i] == (a + b)[if i < |a| then i else i - 1];
  }

  lemma DistinctRemove(a: seq<Token>, b: seq<Token>, t: Token)
    requires Distinct(a + b)
    ensures Distinct(RemoveFirst(a, t) + RemoveFirst(b, t))
  {
    assert forall i :: 0 <= i < |a| ==> a[i] == (a + b)[i];
    assert forall i :: 0 <= i < |b| ==> b[i] == (a + b)[|a| + i];
    RemoveFirstDistinct(a, t);
    RemoveFirstDistinct(b, t);
  }

  lemma RegistrationKeepsInv(s: Sys, l: Label)
    requires Inv(s) && Enabled(s, l) && (l.Subscribe? || l.Unsubscribe?)
    ensures Inv(Apply(s, l))
  {
    hide SubInv, RespInv, LogInv, HistoryInv;
    var a, b := s.hub.callbacks, s.hub.legacyCallbacks;
    if l.Subscribe? {
      DistinctInsert(a, l.t, b);
      DistinctInsert(a + b, l.t, []);
      assert a + b + [l.t] + [] == a + (b + [l.t]) && a + b + [] == a + b;
    } else {
      DistinctRemove(a, b, l.t);
    }
    RegistrationKeepsHistory(s.hub, s.accepted, Apply(s, l).hub);
  }

  lemma RegistrationKeepsHistory(hub: Hub, accepted: seq<Delivery>, hub': Hub)
    requires HistoryInv(hub, accepted)
    requires hub' == hub.(callbacks := hub'.callbacks, legacyCallbacks := hub'.legacyCallbacks)
    ensures HistoryInv(hub', accepted)
  {
  }

  // --------------------------------------------------------- the drainer's steps

  /** A drainer step replaces the phase of the only drainer. */
  lemma OnlyDrainer(s: Sys, k: nat, p: Drain)
    requires DrainInv(s.hub, s.drainers) && k < |s.drainers|
    ensures k == 0 && s.hub.dispatching && Phase(s.drainers) == s.drainers[0]
    ensures Phase(s.drainers[0 := p]) == p
    ensures !p.Drifted? ==> DrainInv(s.hub, s.drainers[0 := p])
  {
  }

  lemma PopKeepsLog(pending: seq<Delivery>, accepted: seq<Delivery>, log: seq<Call>)
    requires LogInv(pending, AtTop, accepted, log) && pending != []
    ensures LogInv(pending[1..], Popped(pending[0]), accepted, log)
  {
    var n := Taken(pending, accepted);
    assert accepted[n..][1..] == accepted[n + 1..];
    assert accepted[n] == pending[0];
  }

  lemma PopKeepsQueues(s: Sys)
    requires SubInv(s.sub, AtTop, s.hub.pending, []) && RespInv(s.resp, AtTop, s.hub.pending, [])
    requires s.hub.pending != []
    ensures SubInv(s.sub, Popped(s.hub.pending[0]), s.hub.pending[1..], [])
    ensures RespInv(s.resp, Popped(s.hub.pending[0]), s.hub.pending[1..], [])
  {
    assert s.hub.pending == [s.hub.pending[0]] + s.hub.pending[1..];
    assert [] + s.hub.pending + [] == [s.hub.pending[0]] + s.hub.pending[1..] + [];
  }

  lemma PopKeepsInv(s: Sys, k: nat)
    requires Inv(s) && Enabled(s, Pop(k))
    ensures Inv(Apply(s, Pop(k)))
  {
    hide SubInv, RespInv, LogInv, WellAddressed;
    OnlyDrainer(s, k, if s.hub.pending == [] then AtTop else Popped(s.hub.pending[0]));
    if s.hub.pending == [] {
      assert s.drainers[..k] + s.drainers[k + 1..] == [];
    } else {
      PopKeepsLog(s.hub.pending, s.accepted, s.log);
      PopKeepsQueues(s);
    }
  }

  lemma QueueHead(d: Delivery, pending: seq<Delivery>, extra: seq<Delivery>)
    ensures DeliveryIds([d] + pending + extra) == [d.event.sequence] + DeliveryIds([] + pending + extra)
    ensures DeltaIds([d] + pending + extra)
            == (if d.event.isDelta then [d.event.sequence] else []) + DeltaIds([] + pending + extra)
  {
    var q, rest := [d] + pending + extra, [] + pending + extra;
    assert q[0] == d && q[1..] == rest;
  }

  lemma ClaimHead(c: Controller, x: ItemId, rest: seq<ItemId>)
    requires c.Inv() && c.pending == [x] + rest && c.inFlight == {} && c.maxInFlight == 1
    ensures c.CanClaim(x)
    ensures c.Claim(x) == c.(pending := rest, inFlight := {x})
    ensures c.Claim(x).Inv()
  {
    assert c.pending[0] == x;
    RemoveHead(x, rest);
    ClaimKeepsInv(c, x);
  }

  lemma ClaimKeepsQueue(sub: Controller, p': Drain, pending: seq<Delivery>, extra: seq<Delivery>, d: Delivery)
    requires SubInv(sub, Popped(d), pending, extra)
    requires SubHeld(p') == {d.event.sequence} && SubPopped(p') == []
    ensures sub.CanClaim(d.event.sequence)
    ensures SubInv(sub.Claim(d.event.sequence), p', pending, extra)
  {
    hide DeliveryIds, Controller.Inv, Controller.Claim, Controller.CanClaim;
    QueueHead(d, pending, extra);
    ClaimHead(sub, d.event.sequence, DeliveryIds([] + pending + extra));
  }

  /** A record that is no delta is invisible to the response controller. */
  lemma NonDeltaLeavesQueue(resp: Controller, p': Drain, pending: seq<Delivery>, extra: seq<Delivery>, d: Delivery)
    requires RespInv(resp, Popped(d), pending, extra) && !d.event.isDelta
    requires RespHeld(p') == {} && RespPopped(p') == []
    ensures RespInv(resp, p', pending, extra)
  {
    hide DeltaIds, Controller.Inv;
    QueueHead(d, pending, extra);
  }

  lemma ClaimSubKeepsInv(s: Sys, k: nat)
    requires Inv(s) && Enabled(s, ClaimSub(k))
    ensures Inv(Apply(s, ClaimSub(k)))
  {
    hide SubInv, RespInv, LogInv, AddressInv, HistoryInv, PlanInv;
    var d := s.drainers[k].d;
    var p' := if d.event.isDelta then ClaimedSub(d) else Calling(d, 0);
    OnlyDrainer(s, k, p');
    ClaimKeepsQueue(s.sub, p', s.hub.pending, SubExtra(s.lock), d);
    ClaimKeepsLog(s.hub.pending, d, s.accepted, s.log);
    if d.event.isDelta {
      PoppedDeltaStays(s.resp, s.hub.pending, RespExtra(s.lock), d);
    } else {
      NonDeltaLeavesQueue(s.resp, p', s.hub.pending, RespExtra(s.lock), d);
    }
  }

  lemma PoppedDeltaStays(resp: Controller, pending: seq<Delivery>, extra: seq<Delivery>, d: Delivery)
    requires RespInv(resp, Popped(d), pending, extra)
    ensures RespInv(resp, ClaimedSub(d), pending, extra)
  {
  }

  lemma ClaimKeepsLog(pending: seq<Delivery>, d: Delivery, accepted: seq<Delivery>, log: seq<Call>)
    requires LogInv(pending, Popped(d), accepted, log)
    ensures d.event.isDelta ==> LogInv(pending, ClaimedSub(d), accepted, log)
    ensures LogInv(pending, Calling(d, 0), accepted, log)
  {
    assert Calls(d)[..0] == [];
    assert log + [] == log;
  }

  lemma ClaimRespKeepsQueue(resp: Controller, pending: seq<Delivery>, extra: seq<Delivery>, d: Delivery)
    requires RespInv(resp, ClaimedSub(d), pending, extra) && d.event.isDelta
    ensures resp.CanClaim(d.event.sequence)
    ensures RespInv(resp.Claim(d.event.sequence), Calling(d, 0), pending, extra)
  {
    hide DeltaIds, Controller.Inv, Controller.Claim, Controller.CanClaim;
    QueueHead(d, pending, extra);
    ClaimHead(resp, d.event.sequence, DeltaIds([] + pending + extra));
  }

  lemma ClaimRespKeepsInv(s: Sys, k: nat)
    requires Inv(s) && Enabled(s, ClaimResp(k))
    ensures Inv(Apply(s, ClaimResp(k)))
  {
    hide SubInv, RespInv, AddressInv, HistoryInv, PlanInv;
    var d := s.drainers[k].d;
    OnlyDrainer(s, k, Calling(d, 0));
    ClaimRespKeepsQueue(s.resp, s.hub.pending, RespExtra(s.lock), d);
    ClaimKeepsLog(s.hub.pending, d, s.accepted, s.log);
    ClaimedSubToCalling(s.sub, s.hub.pending, SubExtra(s.lock), d);
  }

  lemma ClaimedSubToCalling(sub: Controller, pending: seq<Delivery>, extra: seq<Delivery>, d: Delivery)
    requires SubInv(sub, ClaimedSub(d), pending, extra)
    ensures SubInv(sub, Calling(d, 0), pending, extra)
  {
  }

  lemma CallKeepsLog(pending: seq<Delivery>, d: Delivery, made: nat, accepted: seq<Delivery>, log: seq<Call>)
    requires LogInv(pending, Calling(d, made), accepted, log) && made < |Calls(d)|
    ensures LogInv(pending, Calling(d, made + 1), accepted, log + [Calls(d)[made]])
  {
    hide Calls, Flatten;
    assert Calls(d)[..made + 1] == Calls(d)[..made] + [Calls(d)[made]];
    ConcatAssoc(Flatten(accepted[..Taken(pending, accepted) - 1]), Calls(d)[..made], [Calls(d)[made]]);
  }

  lemma CallNextKeepsInv(s: Sys, k: nat)
    requires Inv(s) && Enabled(s, CallNext(k))
    ensures Inv(Apply(s, CallNext(k)))
  {
    hide AddressInv, HistoryInv, PlanInv, LogInv, Calls, DeltaIds, DeliveryIds, Controller.Inv;
    var d, made := s.drainers[k].d, s.drainers[k].made;
    OnlyDrainer(s, k, Calling(d, made + 1));
    CallKeepsLog(s.hub.pending, d, made, s.accepted, s.log);
  }

  lemma CompleteKeepsLog(pending: seq<Delivery>, d: Delivery, accepted: seq<Delivery>, log: seq<Call>)
    requires LogInv(pending, Calling(d, |Calls(d)|), accepted, log)
    ensures LogInv(pending, AtTop, accepted, log)
    ensures d.event.isDelta ==> LogInv(pending, CompletedSub(d), accepted, log)
  {
    assert Calls(d)[..|Calls(d)|] == Calls(d);
    FlattenSnoc(accepted, Taken(pending, accepted) - 1);
  }

  lemma CompleteSubKeepsInv(s: Sys, k: nat)
    requires Inv(s) && Enabled(s, CompleteSub(k))
    ensures Inv(Apply(s, CompleteSub(k)))
  {
    hide AddressInv, HistoryInv, PlanInv, LogInv, Calls, Flatten, DeltaIds, DeliveryIds;
    var d := s.drainers[k].d;
    OnlyDrainer(s, k, if d.event.isDelta then CompletedSub(d) else AtTop);
    CompleteKeepsLog(s.hub.pending, d, s.accepted, s.log);
    assert s.sub.inFlight - {d.event.sequence} == {};
  }

  lemma CompleteRespKeepsInv(s: Sys, k: nat)
    requires Inv(s) && Enabled(s, CompleteResp(k))
    ensures Inv(Apply(s, CompleteResp(k)))
  {
    hide AddressInv, HistoryInv, PlanInv, Calls, Flatten, DeltaIds, DeliveryIds;
    var d := s.drainers[k].d;
    OnlyDrainer(s, k, AtTop);
    assert s.resp.inFlight - {d.event.sequence} == {};
  }

  // -------------------------------------------------------- every reachable state

  lemma StepKeepsInv(s: Sys, l: Label)
    requires Inv(s) && Enabled(s, l)
    ensures Inv(Apply(s, l))
  {
    hide Inv;
    match l
    case EmitBegin(r) => EmitBeginKeepsInv(s, r);
    case AdmitSub => AdmitSubKeepsInv(s);
    case AdmitResp => AdmitRespKeepsInv(s);
    case UndoHalf => UndoHalfKeepsInv(s);
    case UndoSub => UndoSubKeepsInv(s);
    case UndoResp => UndoRespKeepsInv(s);
    case UndoEnd => UndoEndKeepsInv(s);
    case CommitEmit => CommitKeepsInv(s);
    case CloseBegin => CloseKeepsInv(s, l);
    case CloseSub => CloseKeepsInv(s, l);
    case CloseResp => CloseKeepsInv(s, l);
    case Subscribe(_, _) => RegistrationKeepsInv(s, l);
    case Unsubscribe(_) => RegistrationKeepsInv(s, l);
    case Flow(b, kind) => FlowKeepsInv(s, b, kind);
    case Pop(k) => PopKeepsInv(s, k);
    case ClaimSub(k) => ClaimSubKeepsInv(s, k);
    case ClaimResp(k) => ClaimRespKeepsInv(s, k);
    case CallNext(k) => CallNextKeepsInv(s, k);
    case CompleteSub(k) => CompleteSubKeepsInv(s, k);
    case CompleteResp(k) => CompleteRespKeepsInv(s, k);
  }

  /** A run: every state follows from the one before by the label between them. */
  ghost predicate IsRun(states: seq<Sys>, labels: seq<Label>) {
    && |states| == |labels| + 1
    && forall i :: 0 <= i < |labels| ==> Follows(states[i], labels[i], states[i + 1])
  }

  ghost predicate Follows(s: Sys, l: Label, s': Sys) {
    Enabled(s, l) && s' == Apply(s, l)
  }

  ghost predicate IsRunFromStart(states: seq<Sys>, labels: seq<Label>) {
    && IsRun(states, labels)
    && exists historyLimit: nat, pendingLimit: nat ::
         2 <= historyLimit && 1 <= pendingLimit && states[0] == Initial(historyLimit, pendingLimit)
  }

  lemma InitialInv(historyLimit: nat, pendingLimit: nat)
    requires 2 <= historyLimit && 1 <= pendingLimit
    ensures Inv(Initial(historyLimit, pendingLimit))
  {
  }

  lemma {:induction false} EveryStateHasInv(states: seq<Sys>, labels: seq<Label>, i: nat)
    requires IsRunFromStart(states, labels) && i < |states|
    ensures Inv(states[i])
  {
    hide Inv, Enabled, Apply;
    if i == 0 {
      var h: nat, p: nat :| 2 <= h && 1 <= p && states[0] == Initial(h, p);
      InitialInv(h, p);
    } else {
      EveryStateHasInv(states, labels, i - 1);
      assert Follows(states[i - 1], labels[i - 1], states[i]);
      StepKeepsInv(states[i - 1], labels[i - 1]);
    }
  }

  /** The three structures agree at every step: the subscriber controller's pending ids are
      the popped-but-unclaimed one, then the hub queue in order, then what an unfinished
      emit has admitted; the response controller's are the delta part of the same, keeping
      the popped one until the second claim. */
  lemma StructuresAgree(states: seq<Sys>, labels: seq<Label>, i: nat)
    requires IsRunFromStart(states, labels) && i < |states|
    ensures var s := states[i]; var p := Phase(s.drainers);
            && s.sub.pending == DeliveryIds(SubPopped(p) + s.hub.pending + SubExtra(s.lock))
            && s.resp.pending == DeltaIds(RespPopped(p) + s.hub.pending + RespExtra(s.lock))
            && s.sub.inFlight == SubHeld(p) && s.resp.inFlight == RespHeld(p)
    ensures states[i].lock.Free? && Phase(states[i].drainers).AtTop?
            ==> AtRest(states[i].hub, Gates(states[i].sub, states[i].resp))
  {
    hide Inv;
    EveryStateHasInv(states, labels, i);
    StructuresIn(states[i]);
  }

  lemma StructuresIn(s: Sys)
    requires Inv(s)
    ensures var p := Phase(s.drainers);
            && s.sub.pending == DeliveryIds(SubPopped(p) + s.hub.pending + SubExtra(s.lock))
            && s.resp.pending == DeltaIds(RespPopped(p) + s.hub.pending + RespExtra(s.lock))
            && s.sub.inFlight == SubHeld(p) && s.resp.inFlight == RespHeld(p)
    ensures s.lock.Free? && Phase(s.drainers).AtTop? ==> AtRest(s.hub, Gates(s.sub, s.resp))
  {
    hide LogInv, LockInv, AddressInv, CloseInv, DeliveryIds, DeltaIds;
    assert [] + s.hub.pending + [] == s.hub.pending;
  }

  /** No run ever reaches a claim drift or a duplicate identity; there is never more than
      one drainer; queued deliveries imply there is one (no wakeup is lost). */
  lemma NoDriftNoDuplicateNoLostWakeup(states: seq<Sys>, labels: seq<Label>, i: nat)
    requires IsRunFromStart(states, labels) && i < |states|
    ensures !states[i].lock.DuplicateRaised?
    ensures |states[i].drainers| <= 1
    ensures states[i].hub.pending != [] ==> |states[i].drainers| == 1
    ensures forall p :: p in states[i].drainers ==> !p.Drifted?
  {
    EveryStateHasInv(states, labels, i);
  }

  /** History is the contiguous suffix 'overflow count + 1, ..., next - 1' of everything
      accepted, all of it up to the limit and as much as the limit allows beyond, and the
      counters add up. */
  lemma HistoryIsASuffix(states: seq<Sys>, labels: seq<Label>, i: nat)
    requires IsRunFromStart(states, labels) && i < |states|
    ensures var h := states[i].hub;
            && |h.history| == (if h.emitted <= h.historyLimit then h.emitted else h.historyLimit)
            && h.next == h.emitted + 1
            && h.emitted == |h.history| + h.overflowed
            && (forall j :: 0 <= j < |h.history| ==> h.history[j].sequence == h.overflowed + 1 + j)
  {
    hide Inv, IsRunFromStart;
    EveryStateHasInv(states, labels, i);
    HistoryKeepsAll(states, labels, i);
    SuffixAt(states[i]);
  }

  /** Nothing is dropped before the limit is reached. */
  ghost predicate KeepsAll(h: Hub) {
    |h.history| == if h.emitted <= h.historyLimit then h.emitted else h.historyLimit
  }

  lemma CommitKeepsAll(h: Hub, plan: Plan)
    requires KeepsAll(h) && PlanInv(h, plan)
    ensures KeepsAll(h.Commit(plan.ds, plan.drop))
  {
    hide AddressedNow, WellAddressed;
  }

  lemma StepKeepsAll(s: Sys, l: Label)
    requires Inv(s) && Enabled(s, l) && KeepsAll(s.hub)
    ensures KeepsAll(Apply(s, l).hub)
  {
    hide HubInv, SubInv, RespInv, CloseInv, PlanInv, KeepsAll;
    if l.CommitEmit? {
      CommitKeepsAll(s.hub, s.lock.plan);
    } else {
      HistoryStays(s, l);
      SameHistoryKeepsAll(s.hub, Apply(s, l).hub);
    }
  }

  lemma SameHistoryKeepsAll(h: Hub, h': Hub)
    requires KeepsAll(h)
    requires h'.history == h.history && h'.emitted == h.emitted && h'.historyLimit == h.historyLimit
    ensures KeepsAll(h')
  {
  }

  /** Only a commit touches the history. */
  lemma HistoryStays(s: Sys, l: Label)
    requires Enabled(s, l) && !l.CommitEmit?
    ensures var h, h' := s.hub, Apply(s, l).hub;
            h'.history == h.history && h'.emitted == h.emitted && h'.historyLimit == h.historyLimit
  {
    hide Controller.Admit, Controller.AdmitOutcomeOf, Controller.Withdraw, Controller.Claim, Controller.CanClaim,
      Controller.Complete;
  }

  lemma {:induction false} HistoryKeepsAll(states: seq<Sys>, labels: seq<Label>, i: nat)
    requires IsRunFromStart(states, labels) && i < |states|
    ensures KeepsAll(states[i].hub)
  {
    hide Inv, Enabled, Apply;
    if i > 0 {
      HistoryKeepsAll(states, labels, i - 1);
      EveryStateHasInv(states, labels, i - 1);
      assert Follows(states[i - 1], labels[i - 1], states[i]);
      StepKeepsAll(states[i - 1], labels[i - 1]);
    }
  }

  lemma SuffixAt(s: Sys)
    requires Inv(s)
    ensures var h := s.hub;
            && h.next == h.emitted + 1
            && h.emitted == |h.history| + h.overflowed
            && (forall j :: 0 <= j < |h.history| ==> h.history[j].sequence == h.overflowed + 1 + j)
  {
    hide SubInv, RespInv, AddressInv, LogInv, LockInv, CloseInv, DrainInv;
    assert forall j :: 0 <= j < |s.hub.history| ==> s.hub.history[j] == s.accepted[s.hub.overflowed + j].event;
  }

  /** The arguments handed to an overflow factory name exactly the range the emit evicts:
      from the first retained sequence up to the new overflow count. */
  lemma OverflowRecordNamesTheLoss(states: seq<Sys>, labels: seq<Label>, i: nat, r: Request)
    requires IsRunFromStart(states, labels) && i < |states| && states[i].hub.Full()
    ensures var h := states[i].hub;
            && h.FirstDropped(r) == Some(h.overflowed + 1)
            && 1 <= h.DropCount(r) <= |h.history|
            && (forall j :: 0 <= j < h.DropCount(r) ==> h.history[j].sequence == h.overflowed + 1 + j)
            && (r.overflow.Some? ==>
                  h.EventsFor(r)[1] == r.overflow.value(h.next + 1, Some(h.overflowed + 1),
                                                        h.overflowed + h.DropCount(r)))
  {
    EveryStateHasInv(states, labels, i);
    HistoryIsASuffix(states, labels, i);
  }
}
