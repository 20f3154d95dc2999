/** The flow-control vocabulary of framework/backpressure.py: the records that admission
    and pause/resume return, each with the rules its own constructor enforces. */
module Backpressure {
  datatype Boundary = AudioInput | ResponseDelta | VoiceOutput | EventSubscriber
  datatype FlowState = Accepting | Paused | Closed
  datatype ControlKind = Pause | Resume
  datatype RejectionCode =
    | NoRejection
    | CapacityReached
    | AdmissionPaused
    | AdmissionClosed
    | AlreadyPaused
    | AlreadyAccepting

  /** Item identities are compared for equality only, so a number stands for each. */
  type ItemId = nat

  datatype Admission = Admission(boundary: Boundary, itemId: ItemId)

  datatype Snapshot = Snapshot(
    boundary: Boundary,
    state: FlowState,
    pendingCount: int,
    inFlightCount: int,
    maximumPendingCount: int,
    maximumInFlightCount: int,
    overflowCount: int)
  {
    predicate Valid() {
      && 0 <= pendingCount <= maximumPendingCount
      && 0 <= inFlightCount <= maximumInFlightCount
      && 1 <= maximumPendingCount
      && 1 <= maximumInFlightCount
      && 0 <= overflowCount
    }

    predicate AtCapacity() {
      pendingCount == maximumPendingCount || inFlightCount == maximumInFlightCount
    }
  }

  datatype AdmissionResult = AdmissionResult(
    accepted: bool,
    admission: Admission,
    snapshot: Snapshot,
    code: RejectionCode,
    retryable: bool,
    dropped: bool)
  {
    predicate Valid() {
      && snapshot.Valid()
      && !dropped
      && admission.boundary == snapshot.boundary
      && if accepted then
           code == NoRejection && !retryable && snapshot.state == Accepting
         else match code
           case CapacityReached => snapshot.AtCapacity() && retryable
           case AdmissionPaused => snapshot.state == Paused && retryable
           case AdmissionClosed => snapshot.state == Closed && !retryable
           case _ => false
    }
  }

  datatype OverflowEvent = OverflowEvent(
    admission: Admission,
    snapshot: Snapshot,
    retryable: bool,
    dropped: bool)
  {
    predicate Valid() {
      && snapshot.Valid()
      && admission.boundary == snapshot.boundary
      && snapshot.AtCapacity()
      && retryable
      && !dropped
    }
  }

  datatype ControlResult = ControlResult(
    kind: ControlKind,
    boundary: Boundary,
    accepted: bool,
    previousState: FlowState,
    currentState: FlowState,
    snapshot: Snapshot,
    code: RejectionCode,
    cancelledCount: int,
    dropped: bool)
  {
    predicate Valid() {
      && snapshot.Valid()
      && snapshot.boundary == boundary
      && snapshot.state == currentState
      && cancelledCount == 0
      && !dropped
      && if accepted then
           && code == NoRejection
           && (previousState, currentState)
              == if kind == Pause then (Accepting, Paused) else (Paused, Accepting)
         else
           && previousState == currentState
           && if kind == Pause && currentState == Paused then code == AlreadyPaused
              else if kind == Resume && currentState == Accepting then code == AlreadyAccepting
              else currentState == Closed && code == AdmissionClosed
    }
  }
}
