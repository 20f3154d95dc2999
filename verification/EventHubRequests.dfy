/** Where accepted deliveries come from, over any run of EventHubProtocol: which `emit` call
    made each of them and what it asked for, who was registered, and in what order the
    callbacks of one delivery are called. */
module EventHubRequests {
  import opened Common
  import opened Backpressure
  import opened BackpressureRuntime
  import opened EventHub
  import opened EventHubProtocol
  import opened EventHubDelivery

  // ------------------------------------------------------ the emit behind a plan

  /** The records the holder of the hub lock is working on. */
  ghost function Planned(lock: Lock): Option<Plan> {
    match lock
    case Admitting(plan, _, _) => Some(plan)
    case HalfUndo(plan, _) => Some(plan)
    case Undoing(plan, _, _, _) => Some(plan)
    case _ => None
  }

  lemma HeldPlanIsKept(s: Sys, l: Label)
    requires Enabled(s, l) && Planned(Apply(s, l).lock).Some?
    ensures if Planned(s.lock).Some? then Planned(Apply(s, l).lock) == Planned(s.lock) && Apply(s, l).hub == s.hub
            else
              && l.EmitBegin? && !s.hub.closed && Apply(s, l).hub == s.hub && Apply(s, l).accepted == s.accepted
              && Planned(Apply(s, l).lock) == Some(Plan(s.hub.DeliveriesFor(l.r), s.hub.DropCount(l.r)))
    ensures l != CommitEmit && Apply(s, l).accepted == s.accepted
  {
    hide Controller.Admit, Controller.AdmitOutcomeOf, Controller.Withdraw, Controller.Claim, Controller.CanClaim;
  }

  /** Step `b` is the `emit` call whose records are in progress in state `j`. */
  ghost predicate BeganAt(states: seq<Sys>, labels: seq<Label>, b: nat, j: nat) {
    && b < j < |states| && b < |labels| && labels[b].EmitBegin? && !states[b].hub.closed
    && states[j].hub == states[b].hub && states[j].accepted == states[b].accepted
    && Planned(states[j].lock)
       == Some(Plan(states[b].hub.DeliveriesFor(labels[b].r), states[b].hub.DropCount(labels[b].r)))
  }

  lemma {:induction false} SectionBegan(states: seq<Sys>, labels: seq<Label>, j: nat) returns (b: nat)
    requires IsRunFromStart(states, labels) && j < |states| && Planned(states[j].lock).Some?
    ensures BeganAt(states, labels, b, j)
  {
    hide Enabled, Apply, Hub.DeliveriesFor, Hub.DropCount, Planned, Initial;
    b := 0;
    if j == 0 {
      NothingPlanned(states, labels);
    } else {
      assert Follows(states[j - 1], labels[j - 1], states[j]);
      HeldPlanIsKept(states[j - 1], labels[j - 1]);
      if Planned(states[j - 1].lock).Some? {
        b := SectionBegan(states, labels, j - 1);
      } else {
        b := j - 1;
      }
    }
  }

  lemma NothingPlanned(states: seq<Sys>, labels: seq<Label>)
    requires IsRunFromStart(states, labels)
    ensures Planned(states[0].lock).None?
  {
  }

  // --------------------------------------------------- what a delivery is made of

  /** The record at position `a` of everything accepted, as `emit(r)` on `h` asked for it: the
      event of its own factory, or the overflow factory's, told the sequences that history
      loses and how many are then lost in all. */
  ghost predicate AsAsked(h: Hub, r: Request, a: nat, e: Event) {
    || (a == h.emitted && e == r.make(h.next))
    || (a == h.emitted + 1 && h.Full() && r.overflow.Some?
        && e == r.overflow.value(h.next + 1, Some(h.overflowed + 1), h.overflowed + 2))
  }

  /** What a token registered as said gets of one record: the event itself, or as a legacy
      callback its projection, if there is one. */
  ghost function Share(r: Request, e: Event, canonical: bool, legacy: bool): seq<Event> {
    if canonical then [e]
    else if legacy && r.project(e).Some? then [r.project(e).value] else []
  }

  lemma PlannedAsAsked(s: Sys, r: Request, k: nat)
    requires Inv(s) && Enabled(s, EmitBegin(r)) && !s.hub.closed && k < |s.hub.DeliveriesFor(r)|
    ensures AsAsked(s.hub, r, s.hub.emitted + k, s.hub.DeliveriesFor(r)[k].event)
    ensures s.hub.DeliveriesFor(r)[k].legacyEvent == r.project(s.hub.DeliveriesFor(r)[k].event)
    ensures s.hub.DeliveriesFor(r)[k].callbacks == s.hub.callbacks
    ensures s.hub.DeliveriesFor(r)[k].legacyEvent.Some? ==>
              s.hub.DeliveriesFor(r)[k].legacyCallbacks == s.hub.legacyCallbacks
  {
    hide SubInv, RespInv, LogInv, LockInv, CloseInv, DrainInv, AddressInv;
    var h := s.hub;
    if h.Full() {
      assert h.history[0] == s.accepted[h.overflowed..][0].event;
    }
  }

  /** For every accepted delivery: the `emit` call that asked for it, step `b`, and the step
      `j` of the same lock section that committed it. Its event is what that call's factories
      made of the next sequence, and its legacy event is that call's projection of it. */
  lemma AcceptedAsRequested(states: seq<Sys>, labels: seq<Label>, i: nat, a: nat) returns (b: nat, j: nat)
    requires IsRunFromStart(states, labels) && i < |states| && a < |states[i].accepted|
    ensures b < j < i && labels[b].EmitBegin? && labels[j] == CommitEmit && states[j].hub == states[b].hub
    ensures AsAsked(states[b].hub, labels[b].r, a, states[i].accepted[a].event)
    ensures states[i].accepted[a].legacyEvent == labels[b].r.project(states[i].accepted[a].event)
    ensures AddressedNow(states[b].hub, states[i].accepted[a])
  {
    hide Inv, Enabled, Apply, Hub.DeliveriesFor, Hub.DropCount, AddressedNow, AsAsked;
    j := AcceptedWhileRegistered(states, labels, i, a);
    assert Follows(states[j], labels[j], states[j + 1]);
    CommitHasPlan(states[j]);
    b := SectionBegan(states, labels, j);
    AcceptedGrows(states[j], labels[j]);
    EveryStateHasInv(states, labels, b);
    assert Follows(states[b], labels[b], states[b + 1]);
    EmittedIsCount(states[b]);
    PlannedAsAsked(states[b], labels[b].r, a - |states[j].accepted|);
  }

  lemma CommitHasPlan(s: Sys)
    requires Enabled(s, CommitEmit)
    ensures s.lock.Admitting? && Planned(s.lock) == Some(s.lock.plan)
  {
  }

  lemma EmittedIsCount(s: Sys)
    requires Inv(s)
    ensures s.hub.emitted == |s.accepted| && s.hub.next == |s.accepted| + 1
  {
  }

  // ---------------------------------------------------------- who is registered

  /** Token `t` was registered by a call before step `i` and neither unregistered nor cut off
      by a close since. */
  ghost predicate Registered(labels: seq<Label>, i: nat, t: Token, legacy: bool) {
    && i <= |labels| && CloseBegin !in labels[..i]
    && exists j :: RegisteredAt(labels, j, i, t, legacy)
  }

  ghost predicate RegisteredAt(labels: seq<Label>, j: nat, i: nat, t: Token, legacy: bool) {
    j < i <= |labels| && labels[j] == Subscribe(t, legacy) && Unsubscribe(t) !in labels[j..i]
  }

  lemma RegisteredStep(labels: seq<Label>, i: nat, t: Token, legacy: bool)
    requires i < |labels|
    ensures Registered(labels, i + 1, t, legacy)
            <==> && labels[i] != CloseBegin && CloseBegin !in labels[..i]
                 && (labels[i] == Subscribe(t, legacy)
                     || (Registered(labels, i, t, legacy) && labels[i] != Unsubscribe(t)))
  {
    hide RegisteredAt;
    assert labels[..i + 1] == labels[..i] + [labels[i]];
    if Registered(labels, i + 1, t, legacy) {
      var j: nat :| RegisteredAt(labels, j, i + 1, t, legacy);
      RegisteredBefore(labels, j, i + 1, t, legacy);
      if j < i { RegisteredOn(labels, j, i, t, legacy); }
    }
    if labels[i] == Subscribe(t, legacy) {
      RegisteredNow(labels, i, t, legacy);
    } else if Registered(labels, i, t, legacy) {
      var j: nat :| RegisteredAt(labels, j, i, t, legacy);
      RegisteredBefore(labels, j, i, t, legacy);
      RegisteredOn(labels, j, i, t, legacy);
    }
  }

  lemma RegisteredNow(labels: seq<Label>, i: nat, t: Token, legacy: bool)
    requires i < |labels| && labels[i] == Subscribe(t, legacy)
    ensures RegisteredAt(labels, i, i + 1, t, legacy)
  {
    assert labels[i..i + 1] == [labels[i]];
  }

  lemma RegisteredOn(labels: seq<Label>, j: nat, i: nat, t: Token, legacy: bool)
    requires j < i < |labels|
    ensures RegisteredAt(labels, j, i + 1, t, legacy)
            <==> RegisteredAt(labels, j, i, t, legacy) && labels[i] != Unsubscribe(t)
  {
    assert labels[j..i + 1] == labels[j..i] + [labels[i]];
  }

  lemma RegisteredBefore(labels: seq<Label>, j: nat, i: nat, t: Token, legacy: bool)
    requires RegisteredAt(labels, j, i, t, legacy)
    ensures j < i <= |labels| && labels[j] == Subscribe(t, legacy)
  {
  }

  /** A closed hub has no registrations. */
  ghost predicate Rolls(h: Hub) { h.closed ==> h.callbacks == [] && h.legacyCallbacks == [] }

  lemma StepRegisters(s: Sys, l: Label, t: Token)
    requires Enabled(s, l) && Rolls(s.hub) && Distinct(s.hub.callbacks + s.hub.legacyCallbacks)
    ensures var h, h' := s.hub, Apply(s, l).hub;
            && Rolls(h') && (h'.closed <==> h.closed || l == CloseBegin)
            && (t in h'.callbacks <==>
                  !h'.closed && ((t in h.callbacks && l != Unsubscribe(t)) || l == Subscribe(t, false)))
            && (t in h'.legacyCallbacks <==>
                  !h'.closed && ((t in h.legacyCallbacks && l != Unsubscribe(t)) || l == Subscribe(t, true)))
  {
    hide Controller.Admit, Controller.AdmitOutcomeOf, Controller.Withdraw, Controller.Claim, Controller.CanClaim,
      Controller.Complete, RemoveFirst, Distinct;
    var a, b := s.hub.callbacks, s.hub.legacyCallbacks;
    DistinctHalves(a, b);
    if l.Unsubscribe? {
      RemoveFirstDistinct(a, l.t);
      RemoveFirstDistinct(b, l.t);
      NothingToRemove(l.t);
    }
    if !l.Unsubscribe? && !l.Subscribe? && !l.CloseBegin? { OthersRegisterNobody(s, l); }
  }

  lemma NothingToRemove(t: Token)
    ensures RemoveFirst([], t) == []
  {
  }

  lemma DistinctHalves(a: seq<Token>, b: seq<Token>)
    requires Distinct(a + b)
    ensures Distinct(a) && Distinct(b)
  {
    DistinctParts(a, b);
  }

  lemma OthersRegisterNobody(s: Sys, l: Label)
    requires Enabled(s, l) && !l.Unsubscribe? && !l.Subscribe? && !l.CloseBegin?
    ensures Apply(s, l).hub.callbacks == s.hub.callbacks && Apply(s, l).hub.legacyCallbacks == s.hub.legacyCallbacks
    ensures Apply(s, l).hub.closed == s.hub.closed
  {
    hide Controller.Admit, Controller.AdmitOutcomeOf, Controller.Withdraw, Controller.Claim, Controller.CanClaim,
      Controller.Complete;
  }

  /** Who is registered, exactly, in every state of every run; the hub is closed iff a close
      was called. */
  lemma {:induction false} RegisteredIff(states: seq<Sys>, labels: seq<Label>, i: nat, t: Token)
    requires IsRunFromStart(states, labels) && i < |states|
    ensures states[i].hub.closed <==> CloseBegin in labels[..i]
    ensures t in states[i].hub.callbacks <==> Registered(labels, i, t, false)
    ensures t in states[i].hub.legacyCallbacks <==> Registered(labels, i, t, true)
    ensures Rolls(states[i].hub)
  {
    hide Inv, Enabled, Apply, Registered;
    if i == 0 {
      NobodyYet(states, labels, t);
    } else {
      RegisteredIff(states, labels, i - 1, t);
      EveryStateHasInv(states, labels, i - 1);
      DistinctIn(states[i - 1]);
      assert Follows(states[i - 1], labels[i - 1], states[i]);
      StepRegisters(states[i - 1], labels[i - 1], t);
      RegisteredStep(labels, i - 1, t, false);
      RegisteredStep(labels, i - 1, t, true);
      assert labels[..i] == labels[..i - 1] + [labels[i - 1]];
    }
  }

  lemma DistinctIn(s: Sys)
    requires Inv(s)
    ensures Distinct(s.hub.callbacks + s.hub.legacyCallbacks)
  {
  }

  lemma NobodyYet(states: seq<Sys>, labels: seq<Label>, t: Token)
    requires IsRunFromStart(states, labels)
    ensures !states[0].hub.closed && states[0].hub.callbacks == [] && states[0].hub.legacyCallbacks == []
    ensures !Registered(labels, 0, t, false) && !Registered(labels, 0, t, true) && labels[..0] == []
  {
  }

  // -------------------------------------------------------- what each token is given

  /** What token `t` is owed for every accepted delivery, exactly: registered as a canonical
      callback when the `emit` took the lock, the event that `emit` asked for; as a legacy one,
      its projection by that `emit`, if it has one; otherwise nothing. With ExactlyOnceInOrder
      this is what it receives. */
  lemma WhatATokenIsOwed(states: seq<Sys>, labels: seq<Label>, i: nat, a: nat, t: Token) returns (b: nat, j: nat)
    requires IsRunFromStart(states, labels) && i < |states| && a < |states[i].accepted|
    ensures b < j < i && labels[b].EmitBegin? && labels[j] == CommitEmit
    ensures AsAsked(states[b].hub, labels[b].r, a, states[i].accepted[a].event)
    ensures OwedBy(states[i].accepted[a], t)
            == Share(labels[b].r, states[i].accepted[a].event,
                     Registered(labels, b, t, false), Registered(labels, b, t, true))
  {
    hide Inv, Enabled, Apply, AsAsked, Registered, IsRunFromStart;
    b, j := AcceptedAsRequested(states, labels, i, a);
    RegisteredIff(states, labels, b, t);
  }

  // --------------------------------------------------------- the order of all calls

  /** The calls of one delivery: the canonical callbacks in registration order, then the legacy
      ones, if there is a legacy event. */
  lemma CallsInOrder(d: Delivery, k: nat)
    ensures |Calls(d)| == |d.callbacks| + if d.legacyEvent.Some? then |d.legacyCallbacks| else 0
    ensures k < |d.callbacks| ==> Calls(d)[k] == Call(d.callbacks[k], d.event)
    ensures |d.callbacks| <= k < |Calls(d)| ==>
              && d.legacyEvent.Some?
              && Calls(d)[k] == Call(d.legacyCallbacks[k - |d.callbacks|], d.legacyEvent.value)
  {
  }

  ghost predicate InSequence(log: seq<Call>) {
    forall x, y :: 0 <= x < y < |log| ==> log[x].event.sequence <= log[y].event.sequence
  }

  lemma {:induction false} FlattenedInSequence(ds: seq<Delivery>)
    requires forall d :: d in ds ==> WellAddressed(d)
    requires forall i :: 0 <= i < |ds| ==> ds[i].event.sequence == i + 1
    ensures InSequence(Flatten(ds)) && forall x :: 0 <= x < |Flatten(ds)| ==> Flatten(ds)[x].event.sequence <= |ds|
  {
    if ds != [] {
      var front, last := ds[..|ds| - 1], ds[|ds| - 1];
      FlattenedInSequence(front);
      assert last in ds;
      forall k | 0 <= k < |Calls(last)| ensures Calls(last)[k].event.sequence == |ds| { CallsInOrder(last, k); }
      hide Calls, WellAddressed;
    }
  }

  /** Every callback invocation made, by whatever drainer and for whatever token, is in
      sequence order. */
  lemma CallsAreInSequence(states: seq<Sys>, labels: seq<Label>, i: nat)
    requires IsRunFromStart(states, labels) && i < |states|
    ensures InSequence(states[i].log)
  {
    EveryStateHasInv(states, labels, i);
    LogInSequence(states[i]);
  }

  lemma LogInSequence(s: Sys)
    requires Inv(s)
    ensures InSequence(s.log)
  {
    hide SubInv, RespInv, LogInv, PlanInv, WellAddressed, Calls, Flatten;
    FlattenedInSequence(s.accepted);
    LogPlusOutstanding(s.hub.pending, Phase(s.drainers), s.accepted, s.log);
    var all := Flatten(s.accepted);
    assert forall x :: 0 <= x < |s.log| ==> s.log[x] == all[x];
  }

  // ------------------------------------------------------------ flow and counters

  /** The last pause or resume of this boundary. */
  ghost function LatestFlow(labels: seq<Label>, b: Boundary): Option<ControlKind>
    decreases |labels|
  {
    if labels == [] then None
    else
      var l := labels[|labels| - 1];
      if l.Flow? && l.boundary == b then Some(l.kind) else LatestFlow(labels[..|labels| - 1], b)
  }

  function FlowOf(closed: bool, latest: Option<ControlKind>): FlowState {
    if closed then FlowState.Closed else if latest == Some(Pause) then Paused else Accepting
  }

  lemma StepFlows(s: Sys, l: Label)
    requires Enabled(s, l)
    ensures Apply(s, l).sub.state
            == (if l.CloseSub? then FlowState.Closed
                else if l.Flow? && l.boundary == EventSubscriber then s.sub.Control(l.kind).state else s.sub.state)
    ensures Apply(s, l).resp.state
            == (if l.CloseResp? then FlowState.Closed
                else if l.Flow? && l.boundary == Boundary.ResponseDelta then s.resp.Control(l.kind).state
                else s.resp.state)
  {
    hide Controller.AdmitOutcomeOf, Controller.CanClaim, RemoveFirst;
  }

  /** Each controller's flow state is what the calls of the run say: closed once the closer got
      to it, else as the last pause or resume of its own boundary left it. */
  lemma {:induction false} FlowIff(states: seq<Sys>, labels: seq<Label>, i: nat)
    requires IsRunFromStart(states, labels) && i < |states|
    ensures states[i].sub.state == FlowOf(CloseSub in labels[..i], LatestFlow(labels[..i], EventSubscriber))
    ensures states[i].resp.state == FlowOf(CloseResp in labels[..i], LatestFlow(labels[..i], Boundary.ResponseDelta))
  {
    hide Inv, Enabled, Apply;
    if i > 0 {
      FlowIff(states, labels, i - 1);
      assert Follows(states[i - 1], labels[i - 1], states[i]);
      StepFlows(states[i - 1], labels[i - 1]);
      assert labels[..i] == labels[..i - 1] + [labels[i - 1]];
      assert labels[..i][..i - 1] == labels[..i - 1];
    }
  }

  /** The emits that found the hub closed, and those that were rolled back, among the first `i`
      steps. */
  ghost function Rejections(states: seq<Sys>, labels: seq<Label>, i: nat): (nat, nat)
    requires i <= |labels| && i <= |states|
  {
    if i == 0 then (0, 0)
    else
      var (closed, full) := Rejections(states, labels, i - 1);
      (closed + (if labels[i - 1].EmitBegin? && states[i - 1].hub.closed then 1 else 0),
       full + (if labels[i - 1].UndoEnd? then 1 else 0))
  }

  lemma StepCounts(s: Sys, l: Label)
    requires Enabled(s, l)
    ensures var h, h' := s.hub, Apply(s, l).hub;
            && h'.rejectedClosed == h.rejectedClosed + (if l.EmitBegin? && h.closed then 1 else 0)
            && h'.rejectedFull == h.rejectedFull + (if l.UndoEnd? then 1 else 0)
  {
    hide Controller.Admit, Controller.AdmitOutcomeOf, Controller.Withdraw, Controller.Claim, Controller.CanClaim,
      Controller.Complete;
  }

  /** The two rejection counters count exactly those. */
  lemma {:induction false} RejectionsAreCounted(states: seq<Sys>, labels: seq<Label>, i: nat)
    requires IsRunFromStart(states, labels) && i < |states|
    ensures (states[i].hub.rejectedClosed, states[i].hub.rejectedFull) == Rejections(states, labels, i)
  {
    hide Inv, Enabled, Apply;
    if i > 0 {
      RejectionsAreCounted(states, labels, i - 1);
      assert Follows(states[i - 1], labels[i - 1], states[i]);
      StepCounts(states[i - 1], labels[i - 1]);
    }
  }
}
