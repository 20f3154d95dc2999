/** The bounded admission controller of framework/backpressure_runtime.py.
    `Controller` is its state as a value, with one function per operation; the class
    performs the same operations on its own fields, deque loops included. */
module BackpressureRuntime {
  import opened Common
  import opened Backpressure

  datatype AdmitOutcome =
    | DuplicateItem          // the ValueError raised for an identity that is still owned
    | Accepted
    | Rejected(code: RejectionCode)

  datatype Controller = Controller(
    maxPending: nat,
    maxInFlight: nat,
    state: FlowState,
    pending: seq<ItemId>,
    inFlight: set<ItemId>,
    overflow: nat)
  {
    ghost predicate Inv() {
      && 1 <= maxPending
      && 1 <= maxInFlight
      && |pending| <= maxPending
      && |inFlight| <= maxInFlight
      && Distinct(pending)
      && forall x :: x in pending ==> x !in inFlight
    }

    predicate Owns(x: ItemId) { x in pending || x in inFlight }

    function AdmitOutcomeOf(x: ItemId, start: bool): AdmitOutcome {
      if Owns(x) then DuplicateItem
      else match state
        case Paused => Rejected(AdmissionPaused)
        case Closed => Rejected(AdmissionClosed)
        case Accepting =>
          if (if start then |inFlight| >= maxInFlight else |pending| >= maxPending)
          then Rejected(CapacityReached) else Accepted
    }

    function Admit(x: ItemId, start: bool): Controller {
      match AdmitOutcomeOf(x, start)
      case Accepted =>
        if start then this.(inFlight := inFlight + {x}) else this.(pending := pending + [x])
      case Rejected(code) =>
        if code == CapacityReached then this.(overflow := overflow + 1) else this
      case DuplicateItem => this
    }

    predicate CanClaim(x: ItemId) { |inFlight| < maxInFlight && x in pending }

    function Claim(x: ItemId): Controller {
      if CanClaim(x)
      then this.(pending := RemoveFirst(pending, x), inFlight := inFlight + {x})
      else this
    }

    function ClaimOldest(): Controller {
      if pending == [] then this else Claim(pending[0])
    }

    function Complete(x: ItemId): Controller { this.(inFlight := inFlight - {x}) }

    function Withdraw(x: ItemId): Controller { this.(pending := RemoveFirst(pending, x)) }

    predicate ControlAccepted(kind: ControlKind) {
      if kind == Pause then state == Accepting else state == Paused
    }

    function Control(kind: ControlKind): Controller {
      if ControlAccepted(kind)
      then this.(state := if kind == Pause then Paused else Accepting)
      else this
    }

    function Close(): Controller { this.(state := Closed) }
  }

  // ---------------------------------------------------------------- runs

  datatype Op =
    | AdmitOp(x: ItemId, start: bool)
    | ClaimOp(x: ItemId)
    | ClaimOldestOp
    | CompleteOp(x: ItemId)
    | WithdrawOp(x: ItemId)
    | ControlOp(kind: ControlKind)
    | CloseOp

  function Step(c: Controller, op: Op): Controller {
    match op
    case AdmitOp(x, start) => c.Admit(x, start)
    case ClaimOp(x) => c.Claim(x)
    case ClaimOldestOp => c.ClaimOldest()
    case CompleteOp(x) => c.Complete(x)
    case WithdrawOp(x) => c.Withdraw(x)
    case ControlOp(kind) => c.Control(kind)
    case CloseOp => c.Close()
  }

  /** What became of every identity a run accepted. `queued` lists, in order of admission,
      the identities accepted as pending; `tickets` gives for each pending position the
      index in `queued` it came from. */
  datatype Ledger = Ledger(
    queued: seq<ItemId>,
    startedAtOnce: multiset<ItemId>,
    completed: multiset<ItemId>,
    withdrawn: multiset<ItemId>,
    tickets: seq<nat>)

  const EMPTY_LEDGER := Ledger([], multiset{}, multiset{}, multiset{}, [])

  ghost function DropAt(tickets: seq<nat>, i: nat): seq<nat> {
    if i < |tickets| then tickets[..i] + tickets[i + 1..] else tickets
  }

  ghost function RecordAdmit(c: Controller, x: ItemId, start: bool, l: Ledger): Ledger {
    if c.AdmitOutcomeOf(x, start) != Accepted then l
    else if start then l.(startedAtOnce := l.startedAtOnce + multiset{x})
    else l.(queued := l.queued + [x], tickets := l.tickets + [|l.queued|])
  }

  ghost function RecordClaim(c: Controller, x: ItemId, l: Ledger): Ledger {
    if c.CanClaim(x) then l.(tickets := DropAt(l.tickets, IndexOf(c.pending, x))) else l
  }

  ghost function RecordWithdraw(c: Controller, x: ItemId, l: Ledger): Ledger {
    if x !in c.pending then l
    else l.(withdrawn := l.withdrawn + multiset{x},
            tickets := DropAt(l.tickets, IndexOf(c.pending, x)))
  }

  ghost function RecordComplete(c: Controller, x: ItemId, l: Ledger): Ledger {
    if x in c.inFlight then l.(completed := l.completed + multiset{x}) else l
  }

  ghost function Record(c: Controller, op: Op, l: Ledger): Ledger {
    match op
    case AdmitOp(x, start) => RecordAdmit(c, x, start, l)
    case ClaimOp(x) => RecordClaim(c, x, l)
    case ClaimOldestOp => if c.pending == [] then l else RecordClaim(c, c.pending[0], l)
    case CompleteOp(x) => RecordComplete(c, x, l)
    case WithdrawOp(x) => RecordWithdraw(c, x, l)
    case ControlOp(_) => l
    case CloseOp => l
  }

  ghost function Run(c: Controller, ops: seq<Op>): Controller
    decreases |ops|
  {
    if ops == [] then c else Step(Run(c, ops[..|ops| - 1]), ops[|ops| - 1])
  }

  ghost function RunLedger(c: Controller, ops: seq<Op>): Ledger
    decreases |ops|
  {
    if ops == [] then EMPTY_LEDGER
    else Record(Run(c, ops[..|ops| - 1]), ops[|ops| - 1], RunLedger(c, ops[..|ops| - 1]))
  }

  /** Every identity accepted so far is in exactly one place. */
  ghost predicate Conserved(c: Controller, l: Ledger) {
    multiset(l.queued) + l.startedAtOnce
    == multiset(c.pending) + multiset(c.inFlight) + l.completed + l.withdrawn
  }

  /** What is still pending is in the order it was admitted. */
  ghost predicate InAdmissionOrder(c: Controller, l: Ledger) {
    && |l.tickets| == |c.pending|
    && (forall i :: 0 <= i < |l.tickets| ==> l.tickets[i] < |l.queued|)
    && (forall i :: 0 <= i < |l.tickets| ==> l.queued[l.tickets[i]] == c.pending[i])
    && (forall i, j :: 0 <= i < j < |l.tickets| ==> l.tickets[i] < l.tickets[j])
  }

  lemma AppendDistinct<T>(s: seq<T>, x: T)
    requires Distinct(s) && x !in s
    ensures Distinct(s + [x])
  {
  }

  lemma AdmitKeepsInv(c: Controller, x: ItemId, start: bool)
    requires c.Inv()
    ensures c.Admit(x, start).Inv()
  {
    if c.AdmitOutcomeOf(x, start) == Accepted && !start {
      AppendDistinct(c.pending, x);
    }
  }

  lemma ClaimKeepsInv(c: Controller, x: ItemId)
    requires c.Inv()
    ensures c.Claim(x).Inv()
    ensures forall y :: c.Claim(x).Owns(y) <==> c.Owns(y)
  {
    RemoveFirstDistinct(c.pending, x);
  }

  lemma WithdrawKeepsInv(c: Controller, x: ItemId)
    requires c.Inv()
    ensures c.Withdraw(x).Inv()
    ensures forall y :: c.Withdraw(x).Owns(y) ==> c.Owns(y)
  {
    RemoveFirstDistinct(c.pending, x);
  }

  lemma StepKeepsInv(c: Controller, op: Op)
    requires c.Inv()
    ensures Step(c, op).Inv()
    ensures c.state == Closed ==> Step(c, op).state == Closed
    ensures c.state == Closed ==> forall x :: Step(c, op).Owns(x) ==> c.Owns(x)
  {
    match op
    case AdmitOp(x, start) => AdmitKeepsInv(c, x, start);
    case ClaimOp(x) => ClaimKeepsInv(c, x);
    case ClaimOldestOp => if c.pending != [] { ClaimKeepsInv(c, c.pending[0]); }
    case CompleteOp(x) =>
    case WithdrawOp(x) => WithdrawKeepsInv(c, x);
    case ControlOp(_) =>
    case CloseOp =>
  }

  lemma DropKeepsOrder(c: Controller, c': Controller, l: Ledger, l': Ledger, i: nat)
    requires InAdmissionOrder(c, l)
    requires i < |c.pending| && c'.pending == c.pending[..i] + c.pending[i + 1..]
    requires l'.queued == l.queued && l'.tickets == DropAt(l.tickets, i)
    ensures InAdmissionOrder(c', l')
  {
    assert forall k :: 0 <= k < |l'.tickets| ==>
      l'.tickets[k] == l.tickets[if k < i then k else k + 1];
    assert forall k :: 0 <= k < |c'.pending| ==>
      c'.pending[k] == c.pending[if k < i then k else k + 1];
  }

  lemma TakeKeepsOrder(c: Controller, c': Controller, l: Ledger, l': Ledger, x: ItemId)
    requires InAdmissionOrder(c, l)
    requires x in c.pending && c'.pending == RemoveFirst(c.pending, x)
    requires l'.queued == l.queued && l'.tickets == DropAt(l.tickets, IndexOf(c.pending, x))
    ensures multiset(c'.pending) == multiset(c.pending) - multiset{x}
    ensures InAdmissionOrder(c', l')
  {
    hide InAdmissionOrder;
    RemoveFirstMultiset(c.pending, x);
    DropKeepsOrder(c, c', l, l', IndexOf(c.pending, x));
  }

  lemma AddToBoth(q: multiset<ItemId>, b: multiset<ItemId>, p: multiset<ItemId>, f: multiset<ItemId>,
                  c: multiset<ItemId>, w: multiset<ItemId>, x: multiset<ItemId>)
    requires q + b == p + f + c + w
    ensures (q + x) + b == (p + x) + f + c + w
    ensures q + (b + x) == p + (f + x) + c + w
  {
    assert (q + x) + b == (q + b) + x;
    assert q + (b + x) == (q + b) + x;
  }

  lemma AdmitKeepsLedger(c: Controller, x: ItemId, start: bool, l: Ledger)
    requires Conserved(c, l) && InAdmissionOrder(c, l)
    ensures Conserved(c.Admit(x, start), RecordAdmit(c, x, start, l))
    ensures InAdmissionOrder(c.Admit(x, start), RecordAdmit(c, x, start, l))
  {
    var c', l' := c.Admit(x, start), RecordAdmit(c, x, start, l);
    if c.AdmitOutcomeOf(x, start) == Accepted {
      if start {
        assert multiset(c'.inFlight) == multiset(c.inFlight) + multiset{x};
        AddToBoth(multiset(l.queued), l.startedAtOnce, multiset(c.pending), multiset(c.inFlight),
                  l.completed, l.withdrawn, multiset{x});
      } else {
        assert multiset(c'.pending) == multiset(c.pending) + multiset{x};
        assert multiset(l'.queued) == multiset(l.queued) + multiset{x};
        AddToBoth(multiset(l.queued), l.startedAtOnce, multiset(c.pending), multiset(c.inFlight),
                  l.completed, l.withdrawn, multiset{x});
      }
    }
  }

  lemma ClaimKeepsLedger(c: Controller, x: ItemId, l: Ledger)
    requires c.Inv() && Conserved(c, l) && InAdmissionOrder(c, l)
    ensures Conserved(c.Claim(x), RecordClaim(c, x, l))
    ensures InAdmissionOrder(c.Claim(x), RecordClaim(c, x, l))
  {
    if c.CanClaim(x) {
      TakeKeepsOrder(c, c.Claim(x), l, RecordClaim(c, x, l), x);
      assert multiset(c.Claim(x).inFlight) == multiset(c.inFlight) + multiset{x};
    }
  }

  lemma WithdrawKeepsLedger(c: Controller, x: ItemId, l: Ledger)
    requires Conserved(c, l) && InAdmissionOrder(c, l)
    ensures Conserved(c.Withdraw(x), RecordWithdraw(c, x, l))
    ensures InAdmissionOrder(c.Withdraw(x), RecordWithdraw(c, x, l))
  {
    if x in c.pending {
      TakeKeepsOrder(c, c.Withdraw(x), l, RecordWithdraw(c, x, l), x);
    } else {
      assert IndexOf(c.pending, x) == |c.pending|;
    }
  }

  lemma CompleteKeepsLedger(c: Controller, x: ItemId, l: Ledger)
    requires Conserved(c, l) && InAdmissionOrder(c, l)
    ensures Conserved(c.Complete(x), RecordComplete(c, x, l))
    ensures InAdmissionOrder(c.Complete(x), RecordComplete(c, x, l))
  {
    if x in c.inFlight {
      assert multiset(c.inFlight) == multiset(c.inFlight - {x}) + multiset{x};
    } else {
      assert c.inFlight - {x} == c.inFlight;
    }
  }

  lemma StepKeepsLedger(c: Controller, op: Op, l: Ledger)
    requires c.Inv() && Conserved(c, l) && InAdmissionOrder(c, l)
    ensures Conserved(Step(c, op), Record(c, op, l))
    ensures InAdmissionOrder(Step(c, op), Record(c, op, l))
  {
    match op
    case AdmitOp(x, start) => AdmitKeepsLedger(c, x, start, l);
    case ClaimOp(x) => ClaimKeepsLedger(c, x, l);
    case ClaimOldestOp => if c.pending != [] { ClaimKeepsLedger(c, c.pending[0], l); }
    case CompleteOp(x) => CompleteKeepsLedger(c, x, l);
    case WithdrawOp(x) => WithdrawKeepsLedger(c, x, l);
    case ControlOp(_) =>
    case CloseOp =>
  }

  /** For any sequence of operations and any limits: both bounds and distinct identities
      hold, nothing accepted is lost or duplicated, and pending work stays in admission
      order. */
  lemma {:induction false} RunIsSound(c: Controller, ops: seq<Op>)
    requires c.Inv() && c.pending == [] && c.inFlight == {}
    ensures Run(c, ops).Inv()
    ensures Conserved(Run(c, ops), RunLedger(c, ops))
    ensures InAdmissionOrder(Run(c, ops), RunLedger(c, ops))
    decreases |ops|
  {
    if ops == [] {
    } else {
      var init := ops[..|ops| - 1];
      RunIsSound(c, init);
      StepKeepsInv(Run(c, init), ops[|ops| - 1]);
      StepKeepsLedger(Run(c, init), ops[|ops| - 1], RunLedger(c, init));
    }
  }

  /** Close is final: from then on the controller only lets go of what it owns. */
  lemma {:induction false} ClosedIsFinal(c: Controller, ops: seq<Op>)
    requires c.Inv() && c.state == Closed
    ensures Run(c, ops).Inv() && Run(c, ops).state == Closed
    ensures forall x :: Run(c, ops).Owns(x) ==> c.Owns(x)
    decreases |ops|
  {
    if ops == [] {
    } else {
      ClosedIsFinal(c, ops[..|ops| - 1]);
      StepKeepsInv(Run(c, ops[..|ops| - 1]), ops[|ops| - 1]);
    }
  }

  // ---------------------------------------------------------- exact admission

  /** The last pause or resume asked for. */
  function LatestControl(ops: seq<Op>): Option<ControlKind>
    decreases |ops|
  {
    if ops == [] then None
    else if ops[|ops| - 1].ControlOp? then Some(ops[|ops| - 1].kind)
    else LatestControl(ops[..|ops| - 1])
  }

  /** The flow state is what the calls say: closed for good by a close, else as the last
      pause or resume left it. */
  lemma {:induction false} FlowIsRead(c: Controller, ops: seq<Op>)
    requires c.state == Accepting
    ensures Run(c, ops).state == if CloseOp in ops then Closed
                                 else if LatestControl(ops) == Some(Pause) then Paused else Accepting
    decreases |ops|
  {
    hide Step;
    if ops != [] {
      var init, op := ops[..|ops| - 1], ops[|ops| - 1];
      FlowIsRead(c, init);
      assert ops == init + [op];
      FlowStep(Run(c, init), op);
    }
  }

  lemma FlowStep(c: Controller, op: Op)
    ensures Step(c, op).state == match op
                                 case CloseOp => Closed
                                 case ControlOp(kind) =>
                                   if c.state == Closed then Closed else if kind == Pause then Paused else Accepting
                                 case _ => c.state
  {
    hide Controller.AdmitOutcomeOf, Controller.CanClaim;
  }

  /** How often an admission found no room. */
  ghost function Refusals(c: Controller, ops: seq<Op>): nat
    decreases |ops|
  {
    if ops == [] then 0
    else
      var init, op := ops[..|ops| - 1], ops[|ops| - 1];
      Refusals(c, init)
      + if op.AdmitOp? && Run(c, init).AdmitOutcomeOf(op.x, op.start) == Rejected(CapacityReached) then 1 else 0
  }

  lemma {:induction false} OverflowCountsRefusals(c: Controller, ops: seq<Op>)
    ensures Run(c, ops).overflow == c.overflow + Refusals(c, ops)
    decreases |ops|
  {
    hide Controller.AdmitOutcomeOf;
    if ops != [] { OverflowCountsRefusals(c, ops[..|ops| - 1]); }
  }

  /** Accepted more often than completed or withdrawn. */
  ghost predicate StillOwned(l: Ledger, x: ItemId) {
    l.completed[x] + l.withdrawn[x] < multiset(l.queued)[x] + l.startedAtOnce[x]
  }

  /** Every answer to an admission, exactly, after any operations: a duplicate iff the
      identity was accepted more often than it was completed or withdrawn; otherwise closed or
      paused as the calls left it; otherwise refused iff the place asked for, in flight or
      pending, is full, and only that counts as overflow; otherwise it is accepted and then
      owned in that place. */
  lemma AdmissionIsExact(c: Controller, ops: seq<Op>, x: ItemId, start: bool)
    requires c.Inv() && c.pending == [] && c.inFlight == {} && c.state == Accepting
    ensures var s := Run(c, ops);
            var owned := StillOwned(RunLedger(c, ops), x);
            var full := if start then |s.inFlight| == c.maxInFlight else |s.pending| == c.maxPending;
            var closed := CloseOp in ops;
            var paused := !closed && LatestControl(ops) == Some(Pause);
            var a := s.AdmitOutcomeOf(x, start);
            && (a == DuplicateItem <==> owned)
            && (a == Rejected(AdmissionClosed) <==> !owned && closed)
            && (a == Rejected(AdmissionPaused) <==> !owned && paused)
            && (a == Rejected(CapacityReached) <==> !owned && !closed && !paused && full)
            && (a == Accepted <==> !owned && !closed && !paused && !full)
            && (a == Accepted ==>
                  s.Admit(x, start) == if start then s.(inFlight := s.inFlight + {x})
                                       else s.(pending := s.pending + [x]))
            && (a != Accepted ==> s.Admit(x, start).(overflow := 0) == s.(overflow := 0))
  {
    RunIsSound(c, ops);
    FlowIsRead(c, ops);
    LimitsStay(c, ops);
    var s, l := Run(c, ops), RunLedger(c, ops);
    hide Run, RunLedger;
    assert (multiset(l.queued) + l.startedAtOnce)[x]
           == multiset(s.pending)[x] + multiset(s.inFlight)[x] + l.completed[x] + l.withdrawn[x];
    assert x in multiset(s.pending) <==> x in s.pending;
  }

  /** What moves when work is claimed, completed or withdrawn: a claim takes a pending identity
      in flight iff there is room; a completion lets go of one in flight, a withdrawal of one
      pending; nothing else moves. */
  lemma MovesAreExact(c: Controller, x: ItemId)
    requires c.Inv()
    ensures c.Claim(x) != c <==> x in c.pending && |c.inFlight| < c.maxInFlight
    ensures c.Claim(x) != c ==>
              && c.Claim(x).inFlight == c.inFlight + {x} && x !in c.Claim(x).pending
              && multiset(c.Claim(x).pending) + multiset{x} == multiset(c.pending)
    ensures c.Complete(x).pending == c.pending && c.Withdraw(x).inFlight == c.inFlight
    ensures forall y :: y in c.Complete(x).inFlight <==> y in c.inFlight && y != x
    ensures forall y :: y in c.Withdraw(x).pending <==> y in c.pending && y != x
  {
    hide RemoveFirst;
    RemoveFirstDistinct(c.pending, x);
    if x in c.pending { RemoveFirstMultiset(c.pending, x); }
  }

  /** Without a name the head of the queue is claimed, iff there is one and there is room. */
  lemma OldestIsClaimed(c: Controller)
    requires c.Inv()
    ensures c.ClaimOldest() != c <==> c.pending != [] && |c.inFlight| < c.maxInFlight
    ensures c.ClaimOldest() != c ==>
              c.ClaimOldest().inFlight == c.inFlight + {c.pending[0]} && c.ClaimOldest().pending == c.pending[1..]
  {
    hide RemoveFirst, Controller.Inv;
    if c.pending != [] {
      assert c.pending == [c.pending[0]] + c.pending[1..];
      RemoveHead(c.pending[0], c.pending[1..]);
      assert |c.pending[1..]| < |c.pending|;
    }
  }

  lemma {:induction false} LimitsStay(c: Controller, ops: seq<Op>)
    ensures Run(c, ops).maxPending == c.maxPending && Run(c, ops).maxInFlight == c.maxInFlight
    decreases |ops|
  {
    hide Step;
    if ops != [] {
      LimitsStay(c, ops[..|ops| - 1]);
      LimitsStep(Run(c, ops[..|ops| - 1]), ops[|ops| - 1]);
    }
  }

  lemma LimitsStep(c: Controller, op: Op)
    ensures Step(c, op).maxPending == c.maxPending && Step(c, op).maxInFlight == c.maxInFlight
  {
    hide Controller.AdmitOutcomeOf, Controller.CanClaim;
  }

  // ---------------------------------------------------------------- the class

  class BoundedBackpressureRuntime {
    const boundary: Boundary
    const maximumPendingCount: nat
    const maximumInFlightCount: nat
    const pauseResumeSupported: bool
    var state: FlowState
    var pending: seq<Admission>
    var inFlight: map<ItemId, Admission>
    var overflowCount: nat
    var lastRejection: Option<AdmissionResult>

    ghost predicate Valid()
      reads this
    {
      && View().Inv()
      && (forall a :: a in pending ==> a.boundary == boundary)
      && (forall x :: x in inFlight ==> inFlight[x] == Admission(boundary, x))
    }

    ghost function View(): Controller
      reads this
    {
      Controller(maximumPendingCount, maximumInFlightCount, state, Ids(pending), inFlight.Keys, overflowCount)
    }

    constructor (boundary: Boundary, maximumPendingCount: nat, maximumInFlightCount: nat, pauseResumeSupported: bool)
      requires 1 <= maximumPendingCount && 1 <= maximumInFlightCount
      ensures Valid()
      ensures View() == Controller(maximumPendingCount, maximumInFlightCount, Accepting, [], {}, 0)
      ensures this.boundary == boundary && this.pauseResumeSupported == pauseResumeSupported
      ensures lastRejection == None
    {
      this.boundary := boundary;
      this.maximumPendingCount := maximumPendingCount;
      this.maximumInFlightCount := maximumInFlightCount;
      this.pauseResumeSupported := pauseResumeSupported;
      state := Accepting;
      pending, inFlight, overflowCount, lastRejection := [], map[], 0, None;
    }

    function SnapshotNow(): (s: Snapshot)
      reads this
    {
      Snapshot(boundary, state, |pending|, |inFlight|, maximumPendingCount, maximumInFlightCount, overflowCount)
    }

    predicate OwnsPending(x: ItemId)
      requires Valid()
      reads this
      ensures OwnsPending(x) <==> x in View().pending
    {
      IdsMember(pending, boundary, x);
      Admission(boundary, x) in pending
    }

    /** The record `_rejected_locked` builds and remembers. */
    method Reject(admission: Admission, code: RejectionCode, retryable: bool)
      returns (result: AdmissionResult)
      requires admission.boundary == boundary
      requires SnapshotNow().Valid()
      requires match code
               case CapacityReached => SnapshotNow().AtCapacity() && retryable
               case AdmissionPaused => state == Paused && retryable
               case AdmissionClosed => state == Closed && !retryable
               case _ => false
      modifies this`lastRejection
      ensures result.Valid()
      ensures result == AdmissionResult(false, admission, SnapshotNow(), code, retryable, false)
      ensures lastRejection == Some(result)
    {
      result := AdmissionResult(false, admission, SnapshotNow(), code, retryable, false);
      lastRejection := Some(result);
    }

    /** The accepting branch of `admit`. */
    method Accept(admission: Admission, start: bool) returns (result: AdmissionResult)
      requires Valid() && admission.boundary == boundary
      requires View().AdmitOutcomeOf(admission.itemId, start) == Accepted
      modifies this
      ensures Valid()
      ensures View() == old(View()).Admit(admission.itemId, start)
      ensures result.Valid()
      ensures result == AdmissionResult(true, admission, SnapshotNow(), NoRejection, false, false)
      ensures lastRejection == None
    {
      AdmitKeepsInv(View(), admission.itemId, start);
      if start {
        inFlight := inFlight[admission.itemId := admission];
      } else {
        IdsAppend(pending, admission);
        pending := pending + [admission];
      }
      lastRejection := None;
      result := AdmissionResult(true, admission, SnapshotNow(), NoRejection, false, false);
    }

    /** `DuplicateItem` is the ValueError; otherwise a result record is returned, and an
        overflow record exactly when capacity was the reason. */
    method Admit(admission: Admission, start: bool)
      returns (outcome: AdmitOutcome, result: Option<AdmissionResult>, overflow: Option<OverflowEvent>)
      requires Valid() && admission.boundary == boundary
      modifies this
      ensures Valid()
      ensures outcome == old(View()).AdmitOutcomeOf(admission.itemId, start)
      ensures View() == old(View()).Admit(admission.itemId, start)
      ensures result.Some? <==> outcome != DuplicateItem
      ensures result.Some? ==>
                && result.value.Valid()
                && result.value.admission == admission
                && result.value.accepted == (outcome == Accepted)
                && (outcome.Rejected? ==> result.value.code == outcome.code)
                && result.value.snapshot == SnapshotNow()
      ensures overflow.Some? <==> outcome == Rejected(CapacityReached)
      ensures overflow.Some? ==> overflow.value.Valid() && overflow.value.admission == admission
      ensures outcome == Accepted ==> lastRejection == None
      ensures outcome.Rejected? ==> lastRejection == result
      ensures outcome == DuplicateItem ==> lastRejection == old(lastRejection)
    {
      result, overflow := None, None;
      if admission.itemId in inFlight || OwnsPending(admission.itemId) {
        return DuplicateItem, None, None;
      }
      if state == Paused {
        var r := Reject(admission, AdmissionPaused, true);
        outcome, result := Rejected(AdmissionPaused), Some(r);
      } else if state == Closed {
        var r := Reject(admission, AdmissionClosed, false);
        outcome, result := Rejected(AdmissionClosed), Some(r);
      } else if (if start then |inFlight| >= maximumInFlightCount else |pending| >= maximumPendingCount) {
        overflowCount := overflowCount + 1;
        var r := Reject(admission, CapacityReached, true);
        outcome, result := Rejected(CapacityReached), Some(r);
        overflow := Some(OverflowEvent(admission, r.snapshot, true, false));
      } else {
        var r := Accept(admission, start);
        outcome, result := Accepted, Some(r);
      }
    }

    /** The loop shared by keyed claim and withdrawal: empty the deque from the left into a
        fresh one, holding back the first admission with the wanted identity. */
    method TakeFirst(x: ItemId) returns (taken: Option<Admission>)
      requires Valid()
      modifies this`pending
      ensures taken.Some? <==> x in old(Ids(pending))
      ensures taken.Some? ==> taken.value == Admission(boundary, x)
      ensures Ids(pending) == RemoveFirst(old(Ids(pending)), x)
      ensures forall a :: a in pending ==> a.boundary == boundary
    {
      hide Controller.Inv, Ids;
      taken := None;
      var kept: seq<Admission> := [];
      ghost var all: seq<Admission>, n: nat, at: nat := pending, 0, 0;
      while |pending| > 0
        invariant n <= |all| && pending == all[n..]
        invariant taken.None? ==> kept == all[..n]
        invariant taken.Some? ==> at < n && kept == all[..at] + all[at + 1..n]
        invariant taken.Some? ==> taken.value == all[at] && all[at].itemId == x
        invariant forall j :: 0 <= j < (if taken.Some? then at else n) ==> all[j].itemId != x
      {
        var current := pending[0];
        pending := pending[1..];
        if taken.None? && current.itemId == x {
          taken, at := Some(current), n;
        } else {
          kept := kept + [current];
        }
        n := n + 1;
      }
      pending := kept;
      IdsRemove(all, x, pending, if taken.Some? then at else n);
    }

    method Claim(x: ItemId) returns (claimed: Option<Admission>)
      requires Valid()
      modifies this
      ensures Valid()
      ensures claimed == if old(View()).CanClaim(x) then Some(Admission(boundary, x)) else None
      ensures View() == old(View()).Claim(x)
      ensures lastRejection == old(lastRejection)
    {
      StepKeepsInv(View(), ClaimOp(x));
      if |inFlight| >= maximumInFlightCount {
        return None;
      }
      claimed := TakeFirst(x);
      if claimed.Some? {
        inFlight := inFlight[x := claimed.value];
      }
    }

    method ClaimOldest() returns (claimed: Option<Admission>)
      requires Valid()
      modifies this
      ensures Valid()
      ensures View() == old(View()).ClaimOldest()
      ensures claimed == if old(|inFlight|) < maximumInFlightCount && old(pending) != []
                         then Some(old(pending)[0]) else None
      ensures lastRejection == old(lastRejection)
    {
      ghost var was := View();
      hide Controller.Inv;
      if |inFlight| >= maximumInFlightCount || |pending| == 0 {
        return None;
      }
      var oldest := pending[0];
      ClaimKeepsInv(was, oldest.itemId);
      assert Ids(pending) == [oldest.itemId] + Ids(pending[1..]);
      RemoveHead(oldest.itemId, Ids(pending[1..]));
      hide RemoveFirst, Ids;
      pending := pending[1..];
      inFlight := inFlight[oldest.itemId := oldest];
      assert View() == was.Claim(oldest.itemId);
      claimed := Some(oldest);
    }

    method Complete(x: ItemId) returns (completed: bool)
      requires Valid()
      modifies this
      ensures Valid()
      ensures completed == (x in old(inFlight))
      ensures View() == old(View()).Complete(x)
      ensures lastRejection == old(lastRejection)
    {
      StepKeepsInv(View(), CompleteOp(x));
      completed := x in inFlight;
      inFlight := inFlight - {x};
    }

    method WithdrawPending(x: ItemId) returns (removed: bool)
      requires Valid()
      modifies this
      ensures Valid()
      ensures removed == (x in old(View()).pending)
      ensures View() == old(View()).Withdraw(x)
      ensures lastRejection == old(lastRejection)
    {
      StepKeepsInv(View(), WithdrawOp(x));
      var taken := TakeFirst(x);
      removed := taken.Some?;
    }

    /** `None` is the RuntimeError raised when pause/resume is not supported. */
    method Control(kind: ControlKind) returns (result: Option<ControlResult>)
      requires Valid()
      modifies this
      ensures Valid()
      ensures result.Some? <==> pauseResumeSupported
      ensures View() == if pauseResumeSupported then old(View()).Control(kind) else old(View())
      ensures result.Some? ==>
                && result.value.Valid()
                && result.value.kind == kind
                && result.value.accepted == old(View()).ControlAccepted(kind)
                && result.value.previousState == old(state)
                && result.value.currentState == state
      ensures lastRejection == old(lastRejection)
    {
      if !pauseResumeSupported {
        return None;
      }
      var previous := state;
      var accepted, code := false, NoRejection;
      if state == Closed {
        code := AdmissionClosed;
      } else if kind == Pause {
        if state == Paused {
          code := AlreadyPaused;
        } else {
          accepted := true;
          state := Paused;
        }
      } else {
        if state == Accepting {
          code := AlreadyAccepting;
        } else {
          accepted := true;
          state := Accepting;
        }
      }
      result := Some(ControlResult(kind, boundary, accepted, previous, state, SnapshotNow(), code, 0, false));
    }

    method Close() returns (snapshot: Snapshot)
      requires Valid()
      modifies this
      ensures Valid()
      ensures View() == old(View()).Close()
      ensures snapshot == SnapshotNow() && snapshot.Valid()
      ensures lastRejection == old(lastRejection)
    {
      state := Closed;
      snapshot := SnapshotNow();
    }
  }

  ghost function Ids(admissions: seq<Admission>): (r: seq<ItemId>)
    ensures |r| == |admissions|
    ensures forall i :: 0 <= i < |r| ==> r[i] == admissions[i].itemId
  {
    seq(|admissions|, i requires 0 <= i < |admissions| => admissions[i].itemId)
  }

  lemma IdsAppend(s: seq<Admission>, a: Admission)
    ensures Ids(s + [a]) == Ids(s) + [a.itemId]
  {
  }

  lemma IdsMember(s: seq<Admission>, b: Boundary, x: ItemId)
    requires forall a :: a in s ==> a.boundary == b
    ensures Admission(b, x) in s <==> x in Ids(s)
  {
    if x in Ids(s) {
      var i :| 0 <= i < |s| && Ids(s)[i] == x;
      assert s[i] == Admission(b, x);
    }
    if Admission(b, x) in s {
      var i :| 0 <= i < |s| && s[i] == Admission(b, x);
      assert Ids(s)[i] == x;
    }
  }

  /** Removing an admission by identity removes that identity from the list of identities. */
  lemma IdsRemove(all: seq<Admission>, x: ItemId, left: seq<Admission>, at: nat)
    requires at <= |all|
    requires forall j :: 0 <= j < at ==> all[j].itemId != x
    requires if at == |all| then left == all else all[at].itemId == x && left == all[..at] + all[at + 1..]
    ensures Ids(left) == RemoveFirst(Ids(all), x)
    ensures at < |all| <==> x in Ids(all)
  {
    assert forall j :: 0 <= j < at ==> Ids(all)[j] != x;
    if at < |all| { assert Ids(all)[at] == x; }
    assert IndexOf(Ids(all), x) == at;
  }
}
