/** Publishing motion results (framework/motion_session.py) on top of the generation gate:
    the gate decides inside its lock, the event is emitted after that lock is released.
    Any number of requests and any gate operations of other threads interleave. */
module MotionPublish {
  import opened Common
  import G = GenerationGate

  /** A standalone request carries no turn or no generation and bypasses the gate. */
  datatype MotionRequest = MotionRequest(turn: Option<G.TurnId>, generation: Option<G.GenerationId>)
  {
    predicate Bound() { turn.Some? && generation.Some? }
  }

  /** What happened to one request: `decision` is None when the gate was bypassed. */
  datatype Phase =
    | Ready
    | Decided(decision: Option<G.Decision>)
    | Done

  /** The canonical events; the index names the request. */
  datatype Published =
    | ResultEvent(k: nat)
    | StaleResultDropped(k: nat, reason: G.StaleReason, retiredBy: Option<G.AdvanceReason>)

  /** What `emit` did: accepted, EventHubClosedError (swallowed) or a backpressure error. */
  datatype HubAnswer = Accepts | IsClosed | Refuses

  datatype Sys = Sys(
    history: G.History,
    requests: seq<MotionRequest>,
    phases: seq<Phase>,
    published: seq<Published>)

  datatype Label =
    | GateOp(op: G.Op)
    | Decide(k: nat)
    | Publish(k: nat, answer: HubAnswer)

  ghost predicate Enabled(s: Sys, l: Label) {
    match l
    case GateOp(op) => G.Enabled(s.history, op)
    case Decide(k) => k < |s.requests| && k < |s.phases| && s.phases[k] == Ready
    case Publish(k, _) => k < |s.phases| && s.phases[k].Decided?
  }

  /** `_apply_motion_completion`. */
  ghost function DecisionFor(s: Sys, k: nat): Option<G.Decision>
    requires k < |s.requests|
  {
    var r := s.requests[k];
    if !r.Bound() then None else Some(s.history.gate.Classify(r.turn.value, r.generation.value))
  }

  /** The event `_publish_motion_result` emits once the decision is known. */
  ghost function EventFor(k: nat, decision: Option<G.Decision>): Published {
    if decision.Some? && !decision.value.accepted && decision.value.staleReason.Some?
    then StaleResultDropped(k, decision.value.staleReason.value, decision.value.retiredBy)
    else ResultEvent(k)
  }

  ghost function Apply(s: Sys, l: Label): Sys
    requires Enabled(s, l)
  {
    match l
    case GateOp(op) => s.(history := G.Step(s.history, op))
    case Decide(k) =>
      var r := s.requests[k];
      s.(history := if r.Bound() then G.Step(s.history, G.AdmitOp(r.turn.value, r.generation.value))
                    else s.history,
         phases := s.phases[k := Decided(DecisionFor(s, k))])
    case Publish(k, answer) =>
      s.(phases := s.phases[k := Done],
         published := s.published
                      + if answer.Accepts? then [EventFor(k, s.phases[k].decision)] else [])
  }

  ghost predicate Initial(s: Sys) {
    && s.history == G.History(G.INITIAL_GATE, {}, 0, 0)
    && |s.phases| == |s.requests|
    && (forall k :: 0 <= k < |s.phases| ==> s.phases[k] == Ready)
    && s.published == []
  }

  ghost predicate IsRun(states: seq<Sys>, labels: seq<Label>) {
    && |states| == |labels| + 1
    && Initial(states[0])
    && forall i :: 0 <= i < |labels| ==> Follows(states[i], labels[i], states[i + 1])
  }

  ghost predicate Follows(s: Sys, l: Label, s': Sys) {
    Enabled(s, l) && s' == Apply(s, l)
  }

  lemma {:induction false} GateIsSound(states: seq<Sys>, labels: seq<Label>, i: nat)
    requires IsRun(states, labels) && i < |states|
    ensures G.Inv(states[i].history) && G.Accounted(states[i].history)
    ensures states[i].requests == states[0].requests && |states[i].phases| == |states[i].requests|
  {
    hide G.Inv, G.Accounted, G.Step;
    if i == 0 {
      G.InitialIsSound();
    } else {
      GateIsSound(states, labels, i - 1);
      assert Follows(states[i - 1], labels[i - 1], states[i]);
      match labels[i - 1]
      case GateOp(op) => G.StepKeepsInv(states[i - 1].history, op);
      case Decide(k) =>
        var r := states[i - 1].requests[k];
        if r.Bound() {
          G.StepKeepsInv(states[i - 1].history, G.AdmitOp(r.turn.value, r.generation.value));
        }
      case Publish(_, _) =>
    }
  }

  /** Every decision a request still carries was taken at one earlier step. */
  lemma {:induction false} DecisionStep(states: seq<Sys>, labels: seq<Label>, j: nat, k: nat) returns (i: nat)
    requires IsRun(states, labels) && j < |states| && k < |states[j].phases| && states[j].phases[k].Decided?
    ensures i < j && labels[i] == Decide(k) && Enabled(states[i], labels[i])
    ensures states[j].phases[k].decision == DecisionFor(states[i], k)
  {
    hide G.Step, DecisionFor, EventFor;
    i := 0;
    if j > 0 {
      GateIsSound(states, labels, j);
      GateIsSound(states, labels, j - 1);
      assert Follows(states[j - 1], labels[j - 1], states[j]);
      if labels[j - 1] == Decide(k) {
        i := j - 1;
      } else {
        i := DecisionStep(states, labels, j - 1, k);
      }
    }
  }

  /** What gets published, for every run. A gated request publishes its result only if its
      generation and turn were current at the decision; otherwise it publishes the stale
      diagnostic, with the reason the gate gave, and never a result. */
  lemma PublishedAsDecided(states: seq<Sys>, labels: seq<Label>, j: nat) returns (i: nat)
    requires IsRun(states, labels) && j < |labels| && labels[j].Publish?
    ensures i < j && labels[i] == Decide(labels[j].k) && Enabled(states[i], labels[i])
    ensures labels[j].answer.Accepts? ==>
              var r := states[i].requests[labels[j].k];
              var e := states[j + 1].published[|states[j + 1].published| - 1];
              && |states[j + 1].published| == |states[j].published| + 1
              && (e == ResultEvent(labels[j].k)
                  <==> r.turn.None? || r.generation.None?
                       || states[i].history.gate.active == Some(G.Active(r.turn.value, r.generation.value)))
              && (e != ResultEvent(labels[j].k) ==>
                    && r.turn.Some? && r.generation.Some? && e.StaleResultDropped?
                    && var d := states[i].history.gate.Classify(r.turn.value, r.generation.value);
                       && d.staleReason == Some(e.reason) && d.retiredBy == e.retiredBy
                       && (e.reason == G.RetiredGeneration
                           <==> r.generation.value in states[i].history.gate.retired))
    ensures !labels[j].answer.Accepts? ==> states[j + 1].published == states[j].published
  {
    hide G.Inv, G.Accounted, G.Step;
    assert Follows(states[j], labels[j], states[j + 1]);
    var k := labels[j].k;
    i := DecisionStep(states, labels, j, k);
    GateIsSound(states, labels, i);
    assert Follows(states[i], labels[i], states[i + 1]);
    var r := states[i].requests[k];
    if r.Bound() {
      G.ExactIn(states[i].history, r.turn.value, r.generation.value);
    }
  }

  // ---------------------------------------------------------- the open window

  /** The operations that retire whatever generation is active. */
  ghost predicate Retires(l: Label) {
    l.GateOp? && (l.op.StartOp? || l.op.ResetOp? || l.op.AdvanceOp?)
  }

  lemma RetiringStep(h: G.History, op: G.Op, a: G.Active)
    requires G.Inv(h) && G.Enabled(h, op)
    ensures h.gate.active == Some(a) ==>
              if op.AdmitOp? then G.Step(h, op).gate.active == Some(a)
              else a.generation in G.Step(h, op).gate.retired && G.Step(h, op).gate.active != Some(a)
    ensures a.generation in h.gate.retired ==> a.generation in G.Step(h, op).gate.retired
  {
  }

  lemma {:induction false} ActiveUntilRetired(states: seq<Sys>, labels: seq<Label>, i: nat, j: nat, a: G.Active)
    requires IsRun(states, labels) && i <= j < |states| && states[i].history.gate.active == Some(a)
    ensures if forall m :: i <= m < j ==> !Retires(labels[m])
            then states[j].history.gate.active == Some(a)
            else a.generation in states[j].history.gate.retired
    decreases j
  {
    hide G.Inv, G.Accounted, G.Step;
    if i < j {
      ActiveUntilRetired(states, labels, i, j - 1, a);
      GateIsSound(states, labels, j - 1);
      assert Follows(states[j - 1], labels[j - 1], states[j]);
      match labels[j - 1]
      case GateOp(op) => RetiringStep(states[j - 1].history, op, a);
      case Decide(k) =>
        var r := states[j - 1].requests[k];
        if r.Bound() {
          RetiringStep(states[j - 1].history, G.AdmitOp(r.turn.value, r.generation.value), a);
        }
      case Publish(_, _) =>
    }
  }

  /** An accepted result is published while its generation is still current exactly when no
      other thread starts, resets or advances between the decision and the emit. */
  lemma CurrentAtPublishIff(states: seq<Sys>, labels: seq<Label>, i: nat, j: nat)
    requires IsRun(states, labels) && i < j < |labels| && labels[i].Decide? && labels[j].Publish?
    requires labels[j].k == labels[i].k && Enabled(states[i], labels[i])
    requires DecisionFor(states[i], labels[i].k).Some? && DecisionFor(states[i], labels[i].k).value.accepted
    ensures var r := states[i].requests[labels[i].k];
            && r.Bound()
            && (states[j].history.gate.active == Some(G.Active(r.turn.value, r.generation.value))
                <==> forall m :: i < m < j ==> !Retires(labels[m]))
  {
    hide G.Inv, G.Accounted, G.Step;
    GateIsSound(states, labels, i);
    GateIsSound(states, labels, j);
    var r := states[i].requests[labels[i].k];
    var a := G.Active(r.turn.value, r.generation.value);
    G.ExactIn(states[i].history, a.turn, a.generation);
    ActiveUntilRetired(states, labels, i, j, a);
    if a.generation in states[j].history.gate.retired {
      G.ExactIn(states[j].history, a.turn, a.generation);
    }
  }

  /** The window is real: a turn starts, its motion result is accepted, an interrupt retires
      the generation, and the result is published all the same. */
  lemma RetiredResultIsPublished() returns (states: seq<Sys>, labels: seq<Label>)
    ensures IsRun(states, labels) && |labels| == 4
    ensures labels[3] == Publish(0, Accepts)
    ensures states[4].published == [ResultEvent(0)]
    ensures states[3].requests == [MotionRequest(Some(7), Some(1))] && 1 in states[3].history.gate.retired
  {
    var s0 := Sys(G.History(G.INITIAL_GATE, {}, 0, 0), [MotionRequest(Some(7), Some(1))], [Ready], []);
    var l0, l1, l2, l3 := GateOp(G.StartOp(7, 1)), Decide(0), GateOp(G.AdvanceOp(G.Interrupt)), Publish(0, Accepts);
    var s1 := Apply(s0, l0);
    var s2 := Apply(s1, l1);
    var s3 := Apply(s2, l2);
    var s4 := Apply(s3, l3);
    states, labels := [s0, s1, s2, s3, s4], [l0, l1, l2, l3];
  }
}
