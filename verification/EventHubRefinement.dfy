/** The lock section of `emit` as one function (EventHub.Emit, which the class method is
    proved against) is what the step-by-step protocol does when nothing interferes. */
module EventHubRefinement {
  import opened Backpressure
  import opened EventHub
  import opened EventHubProtocol
  import opened EventHubDelivery

  ghost predicate IsEmitLabel(l: Label) {
    || l.EmitBegin? || l.AdmitSub? || l.AdmitResp? || l.UndoHalf?
    || l.UndoSub? || l.UndoResp? || l.UndoEnd? || l.CommitEmit?
  }

  ghost function WithGates(s: Sys, g: Gates): Sys { s.(sub := g.sub, resp := g.resp) }

  /** One accepted record withdrawn from both controllers takes one or two steps. */
  lemma SoloWithdraw(s: Sys) returns (labels: seq<Label>, s': Sys)
    requires s.lock.Undoing? && !s.lock.half && s.lock.at < s.lock.upto <= |s.lock.plan.ds|
    ensures Leads(s, labels, s') && forall l :: l in labels ==> IsEmitLabel(l)
    ensures s' == WithGates(s, WithdrawDelivery(GatesOf(s), s.lock.plan.ds[s.lock.at].event))
                  .(lock := Undoing(s.lock.plan, s.lock.upto, s.lock.at + 1, false))
  {
    var m := Apply(s, UndoSub);
    if s.lock.plan.ds[s.lock.at].event.isDelta {
      s' := Apply(m, UndoResp);
      assert Leads(s', [], s');
      LeadsCons(m, UndoResp, s', [], s');
      labels := [UndoSub] + ([UndoResp] + []);
      LeadsCons(s, UndoSub, m, [UndoResp] + [], s');
    } else {
      s' := m;
      assert Leads(s', [], s');
      labels := [UndoSub] + [];
      LeadsCons(s, UndoSub, s', [], s');
    }
  }

  lemma {:induction false} SoloRollBack(s: Sys) returns (labels: seq<Label>, s': Sys)
    requires s.lock.Undoing? && !s.lock.half && s.lock.at <= s.lock.upto <= |s.lock.plan.ds|
    ensures Leads(s, labels, s') && forall l :: l in labels ==> IsEmitLabel(l)
    ensures s' == WithGates(s, RollBack(GatesOf(s), EventsOf(s.lock.plan.ds[s.lock.at..s.lock.upto])))
                  .(hub := s.hub.(rejectedFull := s.hub.rejectedFull + 1), lock := Free)
    decreases s.lock.upto - s.lock.at
  {
    hide Leads, EventsOf, WithdrawDelivery;
    var events := EventsOf(s.lock.plan.ds[s.lock.at..s.lock.upto]);
    if s.lock.at == s.lock.upto {
      s' := Apply(s, UndoEnd);
      EmptyRun(s');
      labels := [UndoEnd] + [];
      LeadsCons(s, UndoEnd, s', [], s');
    } else {
      var first, m := SoloWithdraw(s);
      var rest;
      rest, s' := SoloRollBack(m);
      labels := first + rest;
      LeadsConcat(s, first, m, rest, s');
      EventsOfTail(s.lock.plan.ds, s.lock.at, s.lock.upto);
    }
  }

  lemma EventsOfTail(ds: seq<Delivery>, at: nat, upto: nat)
    requires at < upto <= |ds|
    ensures EventsOf(ds[at..upto]) == [ds[at].event] + EventsOf(ds[at + 1..upto])
    ensures EventsOf(ds[at..upto])[1..] == EventsOf(ds[at + 1..upto])
  {
  }

  lemma EmptyRun(s: Sys)
    ensures Leads(s, [], s)
  {
  }

  ghost function CommitTo(s: Sys, plan: Plan, g: Gates): Sys
    requires plan.drop <= |s.hub.history|
  {
    WithGates(s, g).(hub := s.hub.Commit(plan.ds, plan.drop), lock := Free,
                     drainers := if s.hub.dispatching then s.drainers else s.drainers + [AtTop],
                     accepted := s.accepted + plan.ds)
  }

  /** Admitting one record takes one or two steps, a half-way undo included. */
  lemma SoloAdmitDelivery(s: Sys) returns (labels: seq<Label>, s': Sys)
    requires s.lock.Admitting? && !s.lock.half && s.lock.done < |s.lock.plan.ds|
    ensures Leads(s, labels, s') && forall l :: l in labels ==> IsEmitLabel(l)
    ensures var a := AdmitDelivery(GatesOf(s), s.lock.plan.ds[s.lock.done].event);
            match a.failure
            case None => s' == WithGates(s, a.gates).(lock := Admitting(s.lock.plan, s.lock.done + 1, false))
            case Some(Refused(_, _)) =>
              s' == WithGates(s, a.gates).(lock := Undoing(s.lock.plan, s.lock.done, 0, false))
            case Some(Owned) => s' == WithGates(s, a.gates).(lock := DuplicateRaised)
  {
    var m := Apply(s, AdmitSub);
    if m.lock.Admitting? && m.lock.half {
      var n := Apply(m, AdmitResp);
      if n.lock.HalfUndo? {
        s' := Apply(n, UndoHalf);
        ThreeSteps(s, AdmitSub, m, AdmitResp, n, UndoHalf, s');
        labels := [AdmitSub, AdmitResp, UndoHalf];
      } else {
        s' := n;
        EmptyRun(s');
        LeadsCons(m, AdmitResp, s', [], s');
        labels := [AdmitSub] + ([AdmitResp] + []);
        LeadsCons(s, AdmitSub, m, [AdmitResp] + [], s');
      }
    } else {
      s' := m;
      EmptyRun(s');
      labels := [AdmitSub] + [];
      LeadsCons(s, AdmitSub, s', [], s');
    }
  }

  lemma {:induction false} SoloAdmitAll(s: Sys) returns (labels: seq<Label>, s': Sys)
    requires s.lock.Admitting? && !s.lock.half && s.lock.done <= |s.lock.plan.ds|
    requires s.lock.plan.drop <= |s.hub.history|
    ensures Leads(s, labels, s') && forall l :: l in labels ==> IsEmitLabel(l)
    ensures var a := AdmitAll(GatesOf(s), EventsOf(s.lock.plan.ds), s.lock.done);
            match a.failure
            case None => s' == CommitTo(s, s.lock.plan, a.gates)
            case Some(Refused(_, _)) =>
              s' == WithGates(s, a.gates).(hub := s.hub.(rejectedFull := s.hub.rejectedFull + 1), lock := Free)
            case Some(Owned) => s'.lock.DuplicateRaised?
    decreases |s.lock.plan.ds| - s.lock.done
  {
    hide Leads, AdmitDelivery, RollBack;
    var plan, done := s.lock.plan, s.lock.done;
    var events := EventsOf(plan.ds);
    if done == |plan.ds| {
      s' := Apply(s, CommitEmit);
      EmptyRun(s');
      labels := [CommitEmit] + [];
      LeadsCons(s, CommitEmit, s', [], s');
    } else {
      var first, m := SoloAdmitDelivery(s);
      var rest := [];
      if m.lock.Admitting? {
        rest, s' := SoloAdmitAll(m);
      } else if m.lock.Undoing? {
        rest, s' := SoloRollBack(m);
        assert EventsOf(plan.ds[0..done]) == events[..done];
      } else {
        s' := m;
        EmptyRun(s');
      }
      labels := first + rest;
      LeadsConcat(s, first, m, rest, s');
    }
  }

  /** The refinement: from every state with the lock free, the emit steps taken without
      interference end with the hub and controllers that `Emit` computes, unless a
      duplicate identity is raised, which no reachable state allows. */
  lemma EmitIsASoloRun(s: Sys, r: Request) returns (labels: seq<Label>, s': Sys)
    requires Inv(s) && s.lock.Free? && !s.hub.closed && ValidRequest(r)
    ensures Leads(s, labels, s') && Inv(s') && forall l :: l in labels ==> IsEmitLabel(l)
    ensures var e := Emit(s.hub, GatesOf(s), r);
            && s'.lock.Free? && s'.hub == e.hub && GatesOf(s') == e.gates
            && (e.outcome.Emitted? || e.outcome.Backpressured?)
            && s'.accepted == s.accepted + if e.outcome.Emitted? then s.hub.DeliveriesFor(r) else []
  {
    hide Leads, SubInv, RespInv, AdmitAll, LogInv, AddressInv;
    var m := Apply(s, EmitBegin(r));
    EventHubProtocol.StepKeepsInv(s, EmitBegin(r));
    DropFits(s.hub, r);
    assert EventsOf(m.lock.plan.ds) == s.hub.EventsFor(r);
    var rest;
    rest, s' := SoloAdmitAll(m);
    labels := [EmitBegin(r)] + rest;
    LeadsCons(s, EmitBegin(r), m, rest, s');
    LeadsKeepsInv(s, labels, s');
    RequestKeepsSequences(s.hub, r);
  }

  lemma DropFits(h: Hub, r: Request)
    requires 2 <= h.historyLimit
    ensures h.DropCount(r) <= |h.history|
  {
  }

  lemma RequestKeepsSequences(h: Hub, r: Request)
    requires ValidRequest(r)
    ensures h.SequencesKept(r)
  {
  }

  lemma {:induction false} LeadsKeepsInv(s: Sys, labels: seq<Label>, s': Sys)
    requires Inv(s) && Leads(s, labels, s')
    ensures Inv(s')
    decreases |labels|
  {
    hide Inv, Apply, Enabled;
    if labels != [] {
      EventHubProtocol.StepKeepsInv(s, labels[0]);
      LeadsKeepsInv(Apply(s, labels[0]), labels[1..], s');
    }
  }

  /** Exact admission in every reachable state with the lock free, both boundaries open and
      no drainer between the two claims of a delta (in particular whenever the emitter is
      the only thread): the emit goes through exactly when all its records fit. */
  lemma ExactAdmissionInRuns(states: seq<Sys>, labels: seq<Label>, i: nat, r: Request)
    requires IsRunFromStart(states, labels) && i < |states| && ValidRequest(r)
    requires var s := states[i];
             && s.lock.Free? && !s.hub.closed && !Phase(s.drainers).ClaimedSub?
             && s.sub.state == Accepting && s.resp.state == Accepting
    ensures 2 <= states[i].hub.historyLimit
    ensures var s := states[i]; var e := Emit(s.hub, GatesOf(s), r);
            && (e.outcome.Emitted? <==> |s.sub.pending| + |s.hub.EventsFor(r)| <= s.sub.maxPending)
            && (!e.outcome.Emitted? ==> e.outcome == Backpressured(EventSubscriber, CapacityReached))
  {
    hide Emit;
    EveryStateHasInv(states, labels, i);
    var s := states[i];
    OwnedIsAhead(s);
    RequestKeepsSequences(s.hub, r);
    ExactAdmission(s.hub, GatesOf(s), r);
  }

  // ------------------------------------------------- the delivery limit of one

  /** History that is full stays full, whatever happens, and the limits never change. */
  lemma FullStaysFull(s: Sys, l: Label)
    requires Inv(s) && Enabled(s, l)
    ensures s.hub.Full() ==> Apply(s, l).hub.Full()
    ensures Apply(s, l).hub.historyLimit == s.hub.historyLimit
    ensures Apply(s, l).sub.maxPending == s.sub.maxPending
  {
    hide SubInv, RespInv, AddressInv, LogInv, DrainInv, CloseInv, Calls;
  }

  /** An emit commits only what the subscriber controller has room for. */
  lemma CommitFits(s: Sys)
    requires Inv(s) && Enabled(s, CommitEmit)
    ensures |s.lock.plan.ds| <= s.sub.maxPending
  {
    hide HubInv, RespInv, PlanInv;
  }

  /** The records of an emit are fixed until its section ends. */
  ghost predicate HoldsTwo(lock: Lock) {
    && (lock.Admitting? || lock.HalfUndo? || lock.Undoing?)
    && |lock.plan.ds| == 2
  }

  lemma HeldPlanStays(s: Sys, l: Label)
    requires HoldsTwo(s.lock) && Enabled(s, l)
    ensures var lock := Apply(s, l).lock; lock.Free? || lock.DuplicateRaised? || HoldsTwo(lock)
  {
  }

  lemma TwoRecordsBegin(s: Sys, r: Request)
    requires Enabled(s, EmitBegin(r)) && !s.hub.closed && s.hub.Full() && r.overflow.Some?
    ensures HoldsTwo(Apply(s, EmitBegin(r)).lock)
  {
  }

  lemma {:induction false} StaysFull(states: seq<Sys>, labels: seq<Label>, i: nat, j: nat)
    requires IsRunFromStart(states, labels) && i <= j < |states| && states[i].hub.Full()
    ensures states[j].hub.Full() && states[j].sub.maxPending == states[i].sub.maxPending
    decreases j
  {
    hide Inv, Apply, Enabled;
    if i < j {
      StaysFull(states, labels, i, j - 1);
      EveryStateHasInv(states, labels, j - 1);
      assert Follows(states[j - 1], labels[j - 1], states[j]);
      FullStaysFull(states[j - 1], labels[j - 1]);
    }
  }

  /** With a limit of one, once history is full, no emit with an overflow factory is accepted
      for the rest of the run, neither at once nor under any interference: one that begins at
      step `j` never reaches its commit while it holds the lock. */
  lemma LimitOneStarvesOverflow(states: seq<Sys>, labels: seq<Label>, i: nat, j: nat, k: nat, r: Request)
    requires IsRunFromStart(states, labels) && i <= j < k < |labels|
    requires states[i].hub.Full() && states[i].sub.maxPending == 1
    requires labels[j] == EmitBegin(r) && r.overflow.Some?
    requires forall m :: j < m <= k ==> !states[m].lock.Free?
    ensures 2 <= states[j].hub.historyLimit && !Emit(states[j].hub, GatesOf(states[j]), r).outcome.Emitted?
    ensures labels[k] != CommitEmit
  {
    hide Inv, Apply, Enabled, Emit;
    StaysFull(states, labels, i, j);
    EveryStateHasInv(states, labels, j);
    OwnedLimits(states[j]);
    LimitOneNeverAdmitsOverflow(states[j].hub, GatesOf(states[j]), r);
    TwoUntil(states, labels, j, k, r);
    StaysFull(states, labels, i, k);
    EveryStateHasInv(states, labels, k);
    assert Follows(states[k], labels[k], states[k + 1]);
    if labels[k] == CommitEmit { CommitFits(states[k]); }
  }

  lemma OwnedLimits(s: Sys)
    requires Inv(s)
    ensures 2 <= s.hub.historyLimit
  {
    hide SubInv, RespInv, AddressInv, LogInv;
  }

  lemma {:induction false} TwoUntil(states: seq<Sys>, labels: seq<Label>, j: nat, k: nat, r: Request)
    requires IsRunFromStart(states, labels) && j < k < |states| && states[j].hub.Full()
    requires labels[j] == EmitBegin(r) && r.overflow.Some?
    requires forall m :: j < m <= k ==> !states[m].lock.Free?
    ensures HoldsTwo(states[k].lock)
    decreases k
  {
    hide Inv, Apply, Enabled;
    assert Follows(states[k - 1], labels[k - 1], states[k]);
    if k == j + 1 {
      ClosedBeginIsFree(states[j], r);
      TwoRecordsBegin(states[j], r);
    } else {
      TwoUntil(states, labels, j, k - 1, r);
      HeldPlanStays(states[k - 1], labels[k - 1]);
      NoDriftNoDuplicateNoLostWakeup(states, labels, k);
    }
  }

  lemma ClosedBeginIsFree(s: Sys, r: Request)
    requires Enabled(s, EmitBegin(r))
    ensures s.hub.closed ==> Apply(s, EmitBegin(r)).lock.Free?
  {
  }
}
