/** `_publish_motion_result` of framework/motion_session.py in its imperative form, over the
    gate's and the hub's classes, with nobody coming in between; who may is the subject of
    MotionPublish. */
module MotionSession {
  import opened Common
  import opened EventHub
  import opened MotionPublish
  import G = GenerationGate

  const STALE_RESULT_DROPPED: nat := 0
  const EVENT_OVERFLOW: nat := 1

  datatype MotionState = WasInterrupted | After(result: nat)

  /** The diagnostic: no overflow record, no legacy form. */
  function StaleDiagnostic(): Request {
    Request((n: nat) => EventHub.Event(n, false, STALE_RESULT_DROPPED), None, (e: EventHub.Event) => None)
  }

  /** The canonical event of a result, with an overflow record and a legacy form. */
  function CanonicalResult(body: nat): Request {
    Request((n: nat) => EventHub.Event(n, false, body),
            Some((n: nat, first: Option<nat>, count: nat) => EventHub.Event(n, false, EVENT_OVERFLOW)),
            (e: EventHub.Event) => Some(e))
  }

  /** Both fit an open hub that accepts exactly when their records do: one for the diagnostic,
      two for a result on a full history. So a stale diagnostic can get through where a
      result is refused, never the other way round. */
  lemma MotionEventsFit(h: Hub, g: Gates, body: nat)
    requires 2 <= h.historyLimit && !h.closed && Ahead(h, g) && g.sub.state.Accepting?
    ensures Emit(h, g, StaleDiagnostic()).outcome.Emitted? <==> |g.sub.pending| + 1 <= g.sub.maxPending
    ensures Emit(h, g, CanonicalResult(body)).outcome.Emitted?
            <==> |g.sub.pending| + (if h.Full() then 2 else 1) <= g.sub.maxPending
    ensures Emit(h, g, CanonicalResult(body)).outcome.Emitted? ==>
              Emit(h, g, StaleDiagnostic()).outcome.Emitted?
              && Emit(h, g, CanonicalResult(body)).outcome.event == EventHub.Event(h.next, false, body)
    ensures Emit(h, g, StaleDiagnostic()).outcome.Emitted? ==>
              Emit(h, g, StaleDiagnostic()).outcome.event == EventHub.Event(h.next, false, STALE_RESULT_DROPPED)
  {
    hide Ahead, AdmitAll;
    ExactNonDeltaAdmission(h, g, StaleDiagnostic());
    ExactNonDeltaAdmission(h, g, CanonicalResult(body));
  }

  class MotionSession {
    const gate: G.RealtimeGenerationGate
    const gateBound: bool        // a standalone session has no gate to ask
    const hub: RealtimeEventHub
    var state: MotionState

    constructor (gate: G.RealtimeGenerationGate, gateBound: bool, hub: RealtimeEventHub)
      ensures this.gate == gate && this.gateBound == gateBound && this.hub == hub && state == After(0)
    {
      this.gate, this.gateBound, this.hub, state := gate, gateBound, hub, After(0);
    }

    /** None is a request that bypasses the gate. */
    method ApplyMotionCompletion(request: MotionRequest, result: nat)
      returns (decision: Option<G.Decision>, applied: seq<nat>)
      modifies gate
      ensures decision == if !gateBound || !request.Bound() then None
                          else Some(old(gate.View()).Classify(request.turn.value, request.generation.value))
      ensures applied == if decision.None? || decision.value.accepted then [result] else []
      ensures gate.View() == if decision.None? then old(gate.View())
                             else old(gate.View()).Admit(request.turn.value, request.generation.value)
    {
      if !gateBound || request.turn.None? || request.generation.None? {
        return None, [result];
      }
      var d, delivered := gate.ApplyCompletion(G.Envelope(request.turn.value, request.generation.value, result));
      decision, applied := Some(d), delivered;
    }

    /** The result goes out, and becomes the session's state, exactly if the gate was bypassed
        or accepted it; otherwise the diagnostic goes out and the session is interrupted. */
    method PublishMotionResult(request: MotionRequest, result: nat) returns (stale: bool, outcome: EmitOutcome)
      requires hub.Valid()
      modifies this, gate, hub, hub.subscriberGate, hub.responseGate
      ensures hub.Valid()
      ensures stale <==> gateBound && request.Bound()
                         && !old(gate.View()).Classify(request.turn.value, request.generation.value).accepted
      ensures state == if stale then WasInterrupted else After(result)
      ensures EmitResult(hub.View(), hub.GatesView(), outcome)
              == Emit(old(hub.View()), old(hub.GatesView()),
                      if stale then StaleDiagnostic() else CanonicalResult(result))
    {
      var decision, applied := ApplyMotionCompletion(request, result);
      var dispatch: bool;
      stale := decision.Some? && !decision.value.accepted;
      if stale {
        state := WasInterrupted;
        outcome, dispatch := hub.EmitLocked(StaleDiagnostic());
      } else {
        state := After(applied[0]);
        outcome, dispatch := hub.EmitLocked(CanonicalResult(applied[0]));
      }
    }
  }
}
