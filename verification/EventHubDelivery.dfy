/** What subscribers observe over any run of EventHubProtocol, what a rejected emit leaves
    behind under interference, and how the interference-free emit of EventHub relates to
    the step-by-step one. */
module EventHubDelivery {
  import opened Common
  import opened Backpressure
  import opened BackpressureRuntime
  import opened EventHub
  import opened EventHubProtocol

  // --------------------------------------------------- exactly once and in order

  /** The events one token has been called with, in order. */
  ghost function Received(log: seq<Call>, t: Token): seq<Event> {
    if log == [] then []
    else Received(log[..|log| - 1], t)
         + if log[|log| - 1].token == t then [log[|log| - 1].event] else []
  }

  ghost function OwedBy(d: Delivery, t: Token): seq<Event> {
    if t in d.callbacks then [d.event]
    else if d.legacyEvent.Some? && t in d.legacyCallbacks then [d.legacyEvent.value]
    else []
  }

  /** The events accepted while `t` was registered, each once, in order of acceptance. */
  ghost function Owed(ds: seq<Delivery>, t: Token): seq<Event> {
    if ds == [] then [] else Owed(ds[..|ds| - 1], t) + OwedBy(ds[|ds| - 1], t)
  }

  lemma {:induction false} ReceivedConcat(a: seq<Call>, b: seq<Call>, t: Token)
    ensures Received(a + b, t) == Received(a, t) + Received(b, t)
  {
    if b == [] {
      assert a + b == a;
    } else {
      var ab, front := a + b, b[..|b| - 1];
      assert ab[..|ab| - 1] == a + front && ab[|ab| - 1] == b[|b| - 1];
      ReceivedConcat(a, front, t);
    }
  }

  lemma {:induction false} ReceivedFan(tokens: seq<Token>, e: Event, t: Token)
    requires Distinct(tokens)
    ensures Received(Fan(tokens, e), t) == if t in tokens then [e] else []
  {
    if tokens != [] {
      var rest := tokens[1..];
      ReceivedFan(rest, e, t);
      ReceivedConcat([Call(tokens[0], e)], Fan(rest, e), t);
      assert [Call(tokens[0], e)][..0] == [];
      assert Received([Call(tokens[0], e)], t) == if tokens[0] == t then [e] else [];
      assert tokens == [tokens[0]] + rest;
      assert tokens[0] !in rest;
    }
  }

  lemma DistinctParts(a: seq<Token>, b: seq<Token>)
    requires Distinct(a + b)
    ensures Distinct(a) && Distinct(b)
    ensures forall t :: t in a ==> t !in b
  {
    assert forall i :: 0 <= i < |a| ==> a[i] == (a + b)[i];
    assert forall i :: 0 <= i < |b| ==> b[i] == (a + b)[|a| + i];
  }

  lemma ReceivedCalls(d: Delivery, t: Token)
    requires WellAddressed(d)
    ensures Received(Calls(d), t) == OwedBy(d, t)
  {
    hide Received, Fan;
    var a, b := d.callbacks, d.legacyCallbacks;
    DistinctParts(a, b);
    ReceivedFan(a, d.event, t);
    if d.legacyEvent.Some? {
      ReceivedFan(b, d.legacyEvent.value, t);
      ReceivedConcat(Fan(a, d.event), Fan(b, d.legacyEvent.value), t);
    } else {
      assert Calls(d) == Fan(a, d.event);
    }
  }

  lemma {:induction false} ReceivedFlatten(ds: seq<Delivery>, t: Token)
    requires forall d :: d in ds ==> WellAddressed(d)
    ensures Received(Flatten(ds), t) == Owed(ds, t)
  {
    if ds != [] {
      var front, last := ds[..|ds| - 1], ds[|ds| - 1];
      ReceivedFlatten(front, t);
      ReceivedCalls(last, t);
      ReceivedConcat(Flatten(front), Calls(last), t);
    }
  }

  lemma {:induction false} OwedConcat(a: seq<Delivery>, b: seq<Delivery>, t: Token)
    ensures Owed(a + b, t) == Owed(a, t) + Owed(b, t)
  {
    if b == [] {
      assert a + b == a;
    } else {
      var ab, front := a + b, b[..|b| - 1];
      assert ab[..|ab| - 1] == a + front && ab[|ab| - 1] == b[|b| - 1];
      OwedConcat(a, front, t);
      ConcatAssoc(Owed(a, t), Owed(front, t), OwedBy(b[|b| - 1], t));
    }
  }

  ghost predicate StrictlyIncreasing(events: seq<Event>) {
    forall i, j :: 0 <= i < j < |events| ==> events[i].sequence < events[j].sequence
  }

  lemma {:induction false} OwedIsIncreasing(ds: seq<Delivery>, t: Token)
    requires forall d :: d in ds ==> WellAddressed(d)
    requires forall i :: 0 <= i < |ds| ==> ds[i].event.sequence == i + 1
    ensures StrictlyIncreasing(Owed(ds, t))
    ensures forall e :: e in Owed(ds, t) ==> 1 <= e.sequence <= |ds|
  {
    if ds != [] {
      var front, last := ds[..|ds| - 1], ds[|ds| - 1];
      OwedIsIncreasing(front, t);
      assert last in ds && last.event.sequence == |ds|;
      assert forall e :: e in OwedBy(last, t) ==> e.sequence == |ds|;
    }
  }

  ghost predicate Prefix<T>(a: seq<T>, b: seq<T>) { |a| <= |b| && b[..|a|] == a }

  /** What the log still lacks: the rest of the current delivery, then the queue. */
  ghost function Outstanding(pending: seq<Delivery>, p: Drain): seq<Call> {
    match p
    case Popped(d) => Calls(d) + Flatten(pending)
    case ClaimedSub(d) => Calls(d) + Flatten(pending)
    case Calling(d, made) => (if made <= |Calls(d)| then Calls(d)[made..] else []) + Flatten(pending)
    case _ => Flatten(pending)
  }

  lemma LogPlusOutstanding(pending: seq<Delivery>, p: Drain, accepted: seq<Delivery>, log: seq<Call>)
    requires LogInv(pending, p, accepted, log) && !p.Drifted?
    ensures Flatten(accepted) == log + Outstanding(pending, p)
  {
    hide Calls, Flatten;
    var n := Taken(pending, accepted);
    assert accepted == accepted[..n] + pending;
    FlattenConcat(accepted[..n], pending);
    if p.Popped? || p.ClaimedSub? || p.Calling? {
      FlattenSnoc(accepted, n - 1);
      ConcatAssoc(Flatten(accepted[..n - 1]), Calls(p.d), Flatten(pending));
      if p.Calling? {
        var a, b := Calls(p.d)[..p.made], Calls(p.d)[p.made..];
        assert Calls(p.d) == a + b;
        ConcatAssoc(a, b, Flatten(pending));
        ConcatAssoc(Flatten(accepted[..n - 1]), a, b + Flatten(pending));
      }
    }
  }

  /** The delivery guarantee, at every state of every run and for every token: what it has
      received is a prefix of what it is owed, in strictly increasing sequence order (so
      nothing is repeated, skipped or reordered), and all of it once no drainer is active. */
  lemma ExactlyOnceInOrder(states: seq<Sys>, labels: seq<Label>, i: nat, t: Token)
    requires IsRunFromStart(states, labels) && i < |states|
    ensures Prefix(Received(states[i].log, t), Owed(states[i].accepted, t))
    ensures StrictlyIncreasing(Owed(states[i].accepted, t))
    ensures states[i].drainers == [] ==> Received(states[i].log, t) == Owed(states[i].accepted, t)
  {
    EveryStateHasInv(states, labels, i);
    DeliveryAt(states[i], t);
  }

  lemma DeliveryAt(s: Sys, t: Token)
    requires Inv(s)
    ensures Prefix(Received(s.log, t), Owed(s.accepted, t))
    ensures StrictlyIncreasing(Owed(s.accepted, t))
    ensures s.drainers == [] ==> Received(s.log, t) == Owed(s.accepted, t)
  {
    hide SubInv, RespInv, LogInv, PlanInv, Owed, Received, WellAddressed, Calls;
    var p := Phase(s.drainers);
    var rest := Outstanding(s.hub.pending, p);
    LogPlusOutstanding(s.hub.pending, p, s.accepted, s.log);
    ReceivedFlatten(s.accepted, t);
    ReceivedConcat(s.log, rest, t);
    OwedIsIncreasing(s.accepted, t);
    if s.drainers == [] { assert s.log + [] == s.log; }
  }

  // ----------------------------------------------- acceptance and registration

  lemma AcceptedGrows(s: Sys, l: Label)
    requires Enabled(s, l)
    ensures Apply(s, l).accepted == s.accepted + if l.CommitEmit? then s.lock.plan.ds else []
  {
  }

  /** Every accepted delivery was committed at one step of the run, and is addressed to
      exactly the tokens registered at that step (legacy ones when it has a projection). */
  lemma {:induction false} AcceptedWhileRegistered(states: seq<Sys>, labels: seq<Label>, i: nat, a: nat)
    returns (j: nat)
    requires IsRunFromStart(states, labels) && i < |states| && a < |states[i].accepted|
    ensures j < i && labels[j] == CommitEmit
    ensures |states[j].accepted| <= a < |states[j + 1].accepted|
    ensures a < |states[j + 1].accepted| && states[i].accepted[a] == states[j + 1].accepted[a]
    ensures AddressedNow(states[j].hub, states[i].accepted[a])
    ensures forall t :: OwedBy(states[i].accepted[a], t) != [] <==>
                          t in states[j].hub.callbacks
                          || (states[i].accepted[a].legacyEvent.Some? && t in states[j].hub.legacyCallbacks)
  {
    hide Inv, Enabled, Apply;
    j := 0;
    if i > 0 {
      assert Follows(states[i - 1], labels[i - 1], states[i]);
      AcceptedGrows(states[i - 1], labels[i - 1]);
      if a < |states[i - 1].accepted| {
        j := AcceptedWhileRegistered(states, labels, i - 1, a);
      } else {
        j := i - 1;
        EveryStateHasInv(states, labels, j);
        CommittedIsAddressed(states[j]);
        assert states[i].accepted[a] == states[j].lock.plan.ds[a - |states[j].accepted|];
      }
    }
  }

  lemma CommittedIsAddressed(s: Sys)
    requires Inv(s) && Enabled(s, CommitEmit)
    ensures s.lock.Admitting?
    ensures forall d :: d in s.lock.plan.ds ==> AddressedNow(s.hub, d)
  {
    hide HubInv, SubInv, RespInv;
  }

  // --------------------------------------------------- nothing accepted is stuck

  /** From `s`, the labels can be taken one after the other and end in `s'`. */
  ghost predicate Leads(s: Sys, labels: seq<Label>, s': Sys)
    decreases |labels|
  {
    if labels == [] then s == s'
    else Enabled(s, labels[0]) && Leads(Apply(s, labels[0]), labels[1..], s')
  }

  lemma LeadsCons(s: Sys, l: Label, m: Sys, rest: seq<Label>, s': Sys)
    requires Follows(s, l, m) && Leads(m, rest, s')
    ensures Leads(s, [l] + rest, s')
  {
    assert ([l] + rest)[1..] == rest;
  }

  lemma {:induction false} LeadsConcat(s: Sys, a: seq<Label>, m: Sys, b: seq<Label>, s': Sys)
    requires Leads(s, a, m) && Leads(m, b, s')
    ensures Leads(s, a + b, s')
    decreases |a|
  {
    if a == [] {
      assert a + b == b;
    } else {
      LeadsConcat(Apply(s, a[0]), a[1..], m, b, s');
      assert (a + b)[0] == a[0] && (a + b)[1..] == a[1..] + b;
    }
  }

  /** The one thing a drainer can do next when the hub lock is free. */
  ghost function NextOfDrainer(p: Drain): Label {
    match p
    case AtTop => Pop(0)
    case Popped(_) => ClaimSub(0)
    case ClaimedSub(_) => ClaimResp(0)
    case Calling(d, made) => if made < |Calls(d)| then CallNext(0) else CompleteSub(0)
    case CompletedSub(_) => CompleteResp(0)
    case Drifted => Pop(0)
  }

  ghost function Rank(p: Drain): nat {
    match p
    case AtTop => 0
    case Drifted => 0
    case CompletedSub(_) => 1
    case Calling(_, _) => 2
    case ClaimedSub(_) => 3
    case Popped(_) => 4
  }

  ghost function CallsLeft(p: Drain): nat {
    if p.Calling? && p.made <= |Calls(p.d)| then |Calls(p.d)| - p.made else 0
  }

  ghost function Measure(s: Sys): (nat, nat, nat) {
    if |s.drainers| != 1 then (|s.hub.pending|, 0, 0)
    else (|s.hub.pending|, Rank(s.drainers[0]), CallsLeft(s.drainers[0]))
  }

  ghost predicate Below(a: (nat, nat, nat), b: (nat, nat, nat)) {
    a.0 < b.0 || (a.0 == b.0 && (a.1 < b.1 || (a.1 == b.1 && a.2 < b.2)))
  }

  lemma DrainerIsEnabled(s: Sys)
    requires Inv(s) && s.lock.Free? && |s.drainers| == 1
    ensures Enabled(s, NextOfDrainer(s.drainers[0]))
  {
    hide SubInv, RespInv, AddressInv, HistoryInv, Calls, Flatten;
  }

  lemma DrainerProgresses(s: Sys, l: Label, s': Sys)
    requires s.lock.Free? && |s.drainers| == 1 && l == NextOfDrainer(s.drainers[0])
    requires Enabled(s, l) && s' == Apply(s, l)
    requires !Phase(s'.drainers).Drifted?
    ensures s'.lock.Free? && s'.accepted == s.accepted
    ensures s'.drainers == [] || (|s'.drainers| == 1 && Below(Measure(s'), Measure(s)))
  {
    hide Calls, Controller.Claim, Controller.Complete;
  }

  /** With the hub lock free, the drainer alone, never blocked, empties the queue and stops. */
  lemma {:induction false} DrainerEmptiesQueue(s: Sys) returns (labels: seq<Label>, s': Sys)
    requires Inv(s) && s.lock.Free?
    ensures Leads(s, labels, s') && Inv(s')
    ensures s'.drainers == [] && s'.hub.pending == [] && s'.accepted == s.accepted
    decreases Measure(s).0, Measure(s).1, Measure(s).2, |s.drainers|
  {
    hide SubInv, RespInv, AddressInv, HistoryInv, LogInv, Calls, Flatten, Apply, Enabled;
    if s.drainers == [] {
      labels, s' := [], s;
    } else {
      var l := NextOfDrainer(s.drainers[0]);
      DrainerIsEnabled(s);
      EventHubProtocol.StepKeepsInv(s, l);
      DrainerProgresses(s, l, Apply(s, l));
      var rest;
      rest, s' := DrainerEmptiesQueue(Apply(s, l));
      LeadsCons(s, l, Apply(s, l), rest, s');
      labels := [l] + rest;
    }
  }

  /** The next controller call, or the end, of whoever holds the hub lock. */
  ghost function NextOfHolder(lock: Lock): Label {
    match lock
    case Admitting(plan, done, half) =>
      if half then AdmitResp else if done < |plan.ds| then AdmitSub else CommitEmit
    case HalfUndo(_, _) => UndoHalf
    case Undoing(_, upto, at, half) => if half then UndoResp else if at < upto then UndoSub else UndoEnd
    case ClosingSub => CloseSub
    case ClosingResp => CloseResp
    case _ => CloseBegin
  }

  /** A bound on the steps a holder still takes. */
  ghost function HolderSteps(lock: Lock): int {
    match lock
    case Admitting(plan, done, half) => 2 * |plan.ds| + 4 + 2 * (|plan.ds| - done) + if half then 0 else 1
    case HalfUndo(_, done) => 2 * done + 2
    case Undoing(_, upto, at, half) => 2 * (upto - at) + if half then 0 else 1
    case ClosingSub => 2
    case ClosingResp => 1
    case _ => 0
  }

  lemma HolderProgresses(s: Sys)
    requires Inv(s) && !s.lock.Free?
    ensures Enabled(s, NextOfHolder(s.lock))
    ensures 0 <= HolderSteps(Apply(s, NextOfHolder(s.lock)).lock) < HolderSteps(s.lock)
            || Apply(s, NextOfHolder(s.lock)).lock == DuplicateRaised
    ensures s.accepted <= Apply(s, NextOfHolder(s.lock)).accepted
  {
    hide HubInv, SubInv, RespInv, CloseInv, Controller.Admit, Controller.AdmitOutcomeOf, Controller.Withdraw;
  }

  /** A lock section, left to itself, comes to its end, whoever holds the lock. */
  lemma {:induction false} LockSectionEnds(s: Sys) returns (labels: seq<Label>, s': Sys)
    requires Inv(s)
    ensures Leads(s, labels, s') && Inv(s') && s'.lock.Free? && s.accepted <= s'.accepted
    ensures s.lock.Free? ==> s' == s
    decreases if s.lock.Free? then 0 else 1, HolderSteps(s.lock)
  {
    hide Inv, Apply, Enabled, HolderSteps;
    if s.lock.Free? {
      labels, s' := [], s;
    } else {
      var l := NextOfHolder(s.lock);
      HolderProgresses(s);
      EventHubProtocol.StepKeepsInv(s, l);
      NoDuplicateRaised(Apply(s, l));
      var rest;
      rest, s' := LockSectionEnds(Apply(s, l));
      LeadsCons(s, l, Apply(s, l), rest, s');
      labels := [l] + rest;
    }
  }

  lemma NoDuplicateRaised(s: Sys)
    requires Inv(s)
    ensures !s.lock.DuplicateRaised?
  {
    hide HubInv, SubInv, RespInv;
  }

  /** From every reachable state, whoever holds the lock can finish and then the drainer,
      never blocked, empties the queue and stops; every token then has all it is owed,
      including what was accepted before an unsubscribe or a close. With the lock free,
      nothing is accepted on the way. */
  lemma DrainerFinishes(s: Sys) returns (labels: seq<Label>, s': Sys)
    requires Inv(s)
    ensures Leads(s, labels, s') && Inv(s')
    ensures s'.drainers == [] && s'.hub.pending == []
    ensures s.accepted <= s'.accepted && (s.lock.Free? ==> s'.accepted == s.accepted)
    ensures forall t :: Received(s'.log, t) == Owed(s'.accepted, t)
  {
    hide Inv, Leads, Received, Owed;
    var first, m := LockSectionEnds(s);
    var rest;
    rest, s' := DrainerEmptiesQueue(m);
    LeadsConcat(s, first, m, rest, s');
    labels := first + rest;
    forall t ensures Received(s'.log, t) == Owed(s'.accepted, t) { DeliveryAt(s', t); }
  }

  // -------------------------------------------- rejection under interference

  lemma HeldLockFreezesHub(s: Sys, l: Label)
    requires Enabled(s, l) && !s.lock.Free? && !s.lock.DuplicateRaised?
    ensures l.UndoEnd? ==> Apply(s, l).hub == s.hub.(rejectedFull := s.hub.rejectedFull + 1)
    ensures !l.UndoEnd? && !l.CommitEmit? ==> Apply(s, l).hub == s.hub
    ensures !l.CommitEmit? ==> Apply(s, l).accepted == s.accepted
    ensures l.CommitEmit? ==> Apply(s, l).lock.Free?
  {
  }

  /** Whatever pauses, resumes, claims, callbacks and completions fall into the middle of
      it, an emit that ends in rejection leaves the hub as it found it (one rejection more)
      and both controllers owning nothing on its behalf: no identity from the next sequence
      on, and pending exactly the queue and what the drainer has yet to claim. */
  lemma RejectedEmitLeavesNoTrace(states: seq<Sys>, labels: seq<Label>, i: nat, j: nat)
    requires IsRunFromStart(states, labels) && i < j < |labels|
    requires labels[i].EmitBegin? && labels[j] == UndoEnd
    requires forall k :: i < k <= j ==> !states[k].lock.Free?
    ensures states[j + 1].hub == states[i].hub.(rejectedFull := states[i].hub.rejectedFull + 1)
    ensures states[j + 1].accepted == states[i].accepted
    ensures Ahead(states[i].hub, GatesOf(states[j + 1]))
    ensures var s := states[j + 1]; var p := Phase(s.drainers);
            && s.sub.pending == DeliveryIds(SubPopped(p) + states[i].hub.pending)
            && s.resp.pending == DeltaIds(RespPopped(p) + states[i].hub.pending)
  {
    hide Inv, Apply, Enabled, DeliveryIds, DeltaIds;
    assert Follows(states[i], labels[i], states[i + 1]);
    BeginKeepsHub(states[i], labels[i]);
    FrozenUpTo(states, labels, i + 1, j);
    assert Follows(states[j], labels[j], states[j + 1]);
    UndoEndFrees(states[j]);
    NoDriftNoDuplicateNoLostWakeup(states, labels, j);
    HeldLockFreezesHub(states[j], labels[j]);
    var s := states[j + 1];
    var p := Phase(s.drainers);
    EveryStateHasInv(states, labels, j + 1);
    OwnedIsAhead(s);
    StructuresAgree(states, labels, j + 1);
    assert SubPopped(p) + s.hub.pending + [] == SubPopped(p) + s.hub.pending;
    assert RespPopped(p) + s.hub.pending + [] == RespPopped(p) + s.hub.pending;
  }

  ghost function GatesOf(s: Sys): Gates { Gates(s.sub, s.resp) }

  /** With the lock free, no controller owns a sequence still to be allocated. */
  lemma OwnedIsAhead(s: Sys)
    requires Inv(s) && s.lock.Free?
    ensures Ahead(s.hub, GatesOf(s))
    ensures !Phase(s.drainers).ClaimedSub? ==> |s.resp.pending| <= |s.sub.pending|
    ensures s.sub.maxPending == s.resp.maxPending && 2 <= s.hub.historyLimit
  {
    hide PlanInv, AddressInv, Controller.Inv, Flatten, Calls, DeltaIds, DeliveryIds;
    var p := Phase(s.drainers);
    var q, q' := SubPopped(p) + s.hub.pending + [], RespPopped(p) + s.hub.pending + [];
    DeltaIdsBound(q');
    DeliveryIdsBelow(q, s.hub.next);
    DeltaIdsBelow(q', s.hub.next);
  }

  lemma DeliveryIdsBelow(q: seq<Delivery>, bound: nat)
    ensures |DeliveryIds(q)| == |q|
    ensures (forall d :: d in q ==> d.event.sequence < bound) ==> forall x: ItemId :: x in DeliveryIds(q) ==> x < bound
  {
  }

  lemma DeltaIdsBelow(q: seq<Delivery>, bound: nat)
    ensures (forall d :: d in q ==> d.event.sequence < bound) ==> forall x: ItemId :: x in DeltaIds(q) ==> x < bound
  {
    DeltaIdsBound(q);
  }

  lemma BeginKeepsHub(s: Sys, l: Label)
    requires Enabled(s, l) && l.EmitBegin? && !Apply(s, l).lock.Free?
    ensures Apply(s, l).hub == s.hub && Apply(s, l).accepted == s.accepted
  {
  }

  lemma UndoEndFrees(s: Sys)
    requires Enabled(s, UndoEnd)
    ensures Apply(s, UndoEnd).lock == Free
  {
  }

  lemma {:induction false} FrozenUpTo(states: seq<Sys>, labels: seq<Label>, i: nat, k: nat)
    requires IsRunFromStart(states, labels) && i <= k < |states|
    requires forall m :: i <= m <= k ==> !states[m].lock.Free?
    ensures states[k].hub.(rejectedFull := 0) == states[i].hub.(rejectedFull := 0)
    ensures states[k].hub.rejectedFull == states[i].hub.rejectedFull
    ensures states[k].accepted == states[i].accepted
    decreases k
  {
    hide Inv, Apply, Enabled;
    if k > i {
      FrozenUpTo(states, labels, i, k - 1);
      assert Follows(states[k - 1], labels[k - 1], states[k]);
      NoDriftNoDuplicateNoLostWakeup(states, labels, k - 1);
      if labels[k - 1].UndoEnd? { UndoEndFrees(states[k - 1]); }
      HeldLockFreezesHub(states[k - 1], labels[k - 1]);
    }
  }

  // ------------------------------------- when a delta is refused for capacity

  lemma {:induction false} AllDeltas(ds: seq<Delivery>)
    ensures |DeltaIds(ds)| == |ds| <==> forall d :: d in ds ==> d.event.isDelta
  {
    if ds != [] {
      AllDeltas(ds[1..]);
      DeltaIdsBound(ds[1..]);
      assert ds == [ds[0]] + ds[1..];
    }
  }

  /** The response controller refuses a delta for capacity exactly when the drainer stands
      between its two claims of a delta, the subscriber controller is full (counting the
      record just admitted there) and every record waiting is a delta. Without a second
      thread no drainer stands there, so the refusal cannot happen. */
  lemma DeltaRefusedForCapacity(s: Sys)
    requires Inv(s) && Enabled(s, AdmitResp) && s.resp.state == Accepting
    ensures var x := s.lock.plan.ds[s.lock.done].event.sequence;
            var waiting := s.hub.pending + s.lock.plan.ds[..s.lock.done + 1];
            s.resp.AdmitOutcomeOf(x, false) == Rejected(CapacityReached)
            <==> && Phase(s.drainers).ClaimedSub?
                 && |s.sub.pending| == s.sub.maxPending
                 && forall d :: d in waiting ==> d.event.isDelta
  {
    hide HubInv, PlanInv, Controller.Inv, Controller.AdmitOutcomeOf, DeltaIds, CloseInv;
    var p, ds, done := Phase(s.drainers), s.lock.plan.ds, s.lock.done;
    var q := RespPopped(p) + s.hub.pending + ds[0..done];
    RefusedIffFull(s, ds[done]);
    SameLimit(s);
    AllDeltas(q);
    DeltaIdsBound(q);
    if p.ClaimedSub? {
      DeltasAmong(p.d, s.hub.pending, ds, done);
    }
  }

  lemma SameLimit(s: Sys)
    requires Inv(s)
    ensures s.sub.maxPending == s.resp.maxPending && |s.sub.pending| <= s.sub.maxPending
    ensures Phase(s.drainers).ClaimedSub? ==> Phase(s.drainers).d.event.isDelta
  {
  }

  lemma DeltasAmong(d: Delivery, pending: seq<Delivery>, ds: seq<Delivery>, done: nat)
    requires d.event.isDelta && done < |ds| && ds[done].event.isDelta
    ensures (forall e :: e in [d] + pending + ds[0..done] ==> e.event.isDelta)
            <==> forall e :: e in pending + ds[..done + 1] ==> e.event.isDelta
  {
    assert ds[..done + 1] == ds[0..done] + [ds[done]];
  }

  lemma RefusedIffFull(s: Sys, d: Delivery)
    requires Inv(s) && Enabled(s, AdmitResp) && d == s.lock.plan.ds[s.lock.done] && s.resp.state == Accepting
    ensures s.resp.AdmitOutcomeOf(d.event.sequence, false) == Rejected(CapacityReached)
            <==> |s.resp.pending| >= s.resp.maxPending
  {
    hide HubInv, SubInv, RespInv, PlanInv, NewTo;
    PlannedIsNew(s, s.lock.plan, s.lock.done, 0, s.lock.done);
    RespAdmits(s.resp, Phase(s.drainers), s.hub.pending, RespExtra(s.lock), d);
  }

  /** Such a refusal is reachable: with a delivery limit of one, a second delta emitted
      while the drainer is between its claims of the first. */
  lemma DeltaRefusalIsReachable() returns (labels: seq<Label>, s: Sys)
    ensures Leads(Initial(2, 1), labels, s) && Enabled(s, AdmitResp)
    ensures Apply(s, AdmitResp).lock.HalfUndo?
  {
    var r := Request((n: nat) => Event(n, true, 0), None, (e: Event) => None);
    var m := DeltaHalfClaimed();
    var begin := [EmitBegin(r), AdmitSub, AdmitResp] + [CommitEmit, Pop(0), ClaimSub(0)];
    AdmitsOneDelta(r);
    ClaimsHalfOfOneDelta();
    LeadsConcat(Initial(2, 1), [EmitBegin(r), AdmitSub, AdmitResp], DeltaAdmitted(),
                [CommitEmit, Pop(0), ClaimSub(0)], m);
    var m1 := Apply(m, EmitBegin(r));
    assert m1.lock.plan.ds[0].event == Event(2, true, 0);
    s := Apply(m1, AdmitSub);
    assert Leads(s, [], s);
    LeadsCons(m1, AdmitSub, s, [], s);
    LeadsCons(m, EmitBegin(r), m1, [AdmitSub] + [], s);
    labels := begin + ([EmitBegin(r)] + ([AdmitSub] + []));
    LeadsConcat(Initial(2, 1), begin, m, [EmitBegin(r)] + ([AdmitSub] + []), s);
  }

  ghost function OneDelta(): Delivery { Delivery(Event(1, true, 0), [], None, []) }

  /** One delta admitted by both controllers and not yet committed. */
  ghost function DeltaAdmitted(): Sys {
    Initial(2, 1).(sub := Controller(1, 1, Accepting, [1], {}, 0),
                   resp := Controller(1, 1, Accepting, [1], {}, 0),
                   lock := Admitting(Plan([OneDelta()], 0), 1, false))
  }

  /** That delta committed, popped, and claimed from the subscriber controller only. */
  ghost function DeltaHalfClaimed(): Sys {
    Sys(Hub(2, 2, [Event(1, true, 0)], [], [], [], false, true, 1, 0, 0, 0),
        Controller(1, 1, Accepting, [], {1}, 0), Controller(1, 1, Accepting, [1], {}, 0),
        Free, [ClaimedSub(OneDelta())], [OneDelta()], [])
  }

  lemma AdmitsOneDelta(r: Request)
    requires r == Request((n: nat) => Event(n, true, 0), None, (e: Event) => None) && ValidRequest(r)
    ensures Leads(Initial(2, 1), [EmitBegin(r), AdmitSub, AdmitResp], DeltaAdmitted())
  {
    var s0, plan := Initial(2, 1), Plan([OneDelta()], 0);
    var s1 := s0.(lock := Admitting(plan, 0, false));
    var s2 := s0.(sub := Controller(1, 1, Accepting, [1], {}, 0), lock := Admitting(plan, 0, true));
    assert s0.hub.DeliveriesFor(r) == [OneDelta()];
    assert Follows(s0, EmitBegin(r), s1);
    assert Follows(s1, AdmitSub, s2);
    assert Follows(s2, AdmitResp, DeltaAdmitted());
    ThreeSteps(s0, EmitBegin(r), s1, AdmitSub, s2, AdmitResp, DeltaAdmitted());
  }

  lemma ThreeSteps(a: Sys, l: Label, b: Sys, l': Label, c: Sys, l'': Label, d: Sys)
    requires Follows(a, l, b) && Follows(b, l', c) && Follows(c, l'', d)
    ensures Leads(a, [l, l', l''], d)
  {
    hide Follows;
    assert Leads(d, [], d);
    LeadsCons(c, l'', d, [], d);
    assert [l''] + [] == [l''];
    LeadsCons(b, l', c, [l''], d);
    assert [l'] + [l''] == [l', l''];
    LeadsCons(a, l, b, [l', l''], d);
    assert [l] + [l', l''] == [l, l', l''];
  }

  ghost function DeltaQueued(): Sys {
    DeltaHalfClaimed().(hub := DeltaHalfClaimed().hub.(pending := [OneDelta()]),
                        sub := DeltaAdmitted().sub,
                        drainers := [AtTop])
  }

  lemma CommitsOneDelta()
    ensures Follows(DeltaAdmitted(), CommitEmit, DeltaQueued())
  {
    assert EventsOf([OneDelta()]) == [OneDelta().event];
  }

  lemma ClaimsPoppedDelta(popped: Sys)
    requires popped == DeltaHalfClaimed().(sub := DeltaAdmitted().sub, drainers := [Popped(OneDelta())])
    ensures Follows(popped, ClaimSub(0), DeltaHalfClaimed())
  {
    assert [1] == [1] + [];
    RemoveHead(1, []);
  }

  lemma ClaimsHalfOfOneDelta()
    ensures Leads(DeltaAdmitted(), [CommitEmit, Pop(0), ClaimSub(0)], DeltaHalfClaimed())
  {
    hide Leads;
    var popped := DeltaHalfClaimed().(sub := DeltaAdmitted().sub, drainers := [Popped(OneDelta())]);
    CommitsOneDelta();
    assert Follows(DeltaQueued(), Pop(0), popped);
    ClaimsPoppedDelta(popped);
    ThreeSteps(DeltaAdmitted(), CommitEmit, DeltaQueued(), Pop(0), popped, ClaimSub(0), DeltaHalfClaimed());
  }
}
