/** The freshness owner of framework/realtime_generation_gate.py: its state as a value with
    one function per locked operation, what holds over every run, and the class. */
module GenerationGate {
  import opened Common

  type GenerationId = nat
  type TurnId = nat

  datatype AdvanceReason = NewTurn | Interrupt | Cancel | Reset | SessionClosed | TurnTerminal
  datatype StaleReason = RetiredGeneration | UnknownGeneration | TurnMismatch

  datatype Active = Active(turn: TurnId, generation: GenerationId)
  datatype Retired = Retired(turn: TurnId, generation: GenerationId, reason: AdvanceReason)

  datatype Envelope<V> = Envelope(turn: TurnId, generation: GenerationId, value: V)

  datatype Decision = Decision(
    accepted: bool,
    staleReason: Option<StaleReason>,
    retiredBy: Option<AdvanceReason>,
    currentGeneration: Option<GenerationId>)
  {
    /** The rules GenerationAdmissionDecision enforces when it is built. */
    predicate Valid() {
      if accepted then staleReason.None? && retiredBy.None?
      else staleReason.Some? && (retiredBy.Some? <==> staleReason == Some(RetiredGeneration))
    }
  }

  datatype Gate = Gate(
    active: Option<Active>,
    pending: Option<GenerationId>,
    latest: Option<GenerationId>,
    retired: map<GenerationId, Retired>,
    known: map<GenerationId, TurnId>,
    starts: nat,
    advances: nat,
    acceptedCount: nat,
    staleCount: nat)
  {
    function Current(): Option<GenerationId> {
      if active.Some? then Some(active.value.generation) else None
    }

    function Retire(reason: AdvanceReason): Gate {
      if active.None? then this
      else
        var a := active.value;
        this.(active := None,
              retired := retired[a.generation := Retired(a.turn, a.generation, reason)],
              advances := advances + 1)
    }

    /** `newId` is the identity `GenerationId.new()` would produce. */
    function Start(turn: TurnId, newId: GenerationId): (Gate, GenerationId) {
      var g := Retire(NewTurn);
      var id := if g.pending.Some? then g.pending.value else newId;
      (g.(starts := if g.pending.Some? then g.starts else g.starts + 1,
          pending := None,
          active := Some(Active(turn, id)),
          known := g.known[id := turn],
          latest := Some(id)),
       id)
    }

    function ResetTo(newId: GenerationId): (Gate, Option<(GenerationId, GenerationId)>) {
      var g := Retire(Reset);
      var previous := if active.Some? then Some(active.value.generation)
                      else if pending.Some? then pending else latest;
      if previous.None? then (g, None)
      else (g.(pending := Some(newId), latest := Some(newId), starts := g.starts + 1),
            Some((previous.value, newId)))
    }

    /** `_admit_completion_locked`, in the order of its tests. */
    function Classify(turn: TurnId, id: GenerationId): Decision {
      if id in retired then Decision(false, Some(RetiredGeneration), Some(retired[id].reason), Current())
      else if id !in known || active.None? then Decision(false, Some(UnknownGeneration), None, Current())
      else if id != active.value.generation then Decision(false, Some(UnknownGeneration), None, Current())
      else if turn != active.value.turn then Decision(false, Some(TurnMismatch), None, Current())
      else Decision(true, None, None, Current())
    }

    function Admit(turn: TurnId, id: GenerationId): Gate {
      if Classify(turn, id).accepted then this.(acceptedCount := acceptedCount + 1)
      else this.(staleCount := staleCount + 1)
    }
  }

  const INITIAL_GATE := Gate(None, None, None, map[], map[], 0, 0, 0, 0)

  // ------------------------------------------------------------------- runs

  datatype Op =
    | StartOp(turn: TurnId, newId: GenerationId)
    | ResetOp(newId: GenerationId)
    | AdvanceOp(reason: AdvanceReason)
    | AdmitOp(turn: TurnId, id: GenerationId)

  /** The gate, with every identity ever issued, the reservations a later reset overwrote
      and the completions presented. */
  datatype History = History(gate: Gate, issued: set<GenerationId>, overwritten: nat, presented: nat)

  /** `GenerationId.new()` never repeats an identity. */
  ghost predicate Enabled(h: History, op: Op) {
    match op
    case StartOp(_, newId) => newId !in h.issued
    case ResetOp(newId) => newId !in h.issued
    case _ => true
  }

  ghost function Step(h: History, op: Op): History {
    match op
    case StartOp(turn, newId) =>
      h.(gate := h.gate.Start(turn, newId).0,
         issued := if h.gate.pending.Some? then h.issued else h.issued + {newId})
    case ResetOp(newId) =>
      if h.gate.ResetTo(newId).1.None? then h
      else h.(gate := h.gate.ResetTo(newId).0,
              issued := h.issued + {newId},
              overwritten := if h.gate.pending.Some? then h.overwritten + 1 else h.overwritten)
    case AdvanceOp(reason) => h.(gate := h.gate.Retire(reason))
    case AdmitOp(turn, id) => h.(gate := h.gate.Admit(turn, id), presented := h.presented + 1)
  }

  ghost function Run(ops: seq<Op>): History
    decreases |ops|
  {
    if ops == [] then History(INITIAL_GATE, {}, 0, 0)
    else Step(Run(ops[..|ops| - 1]), ops[|ops| - 1])
  }

  ghost predicate Legal(ops: seq<Op>)
    decreases |ops|
  {
    ops == []
    || (Legal(ops[..|ops| - 1]) && Enabled(Run(ops[..|ops| - 1]), ops[|ops| - 1]))
  }

  ghost predicate Inv(h: History) {
    var g := h.gate;
    && !(g.active.Some? && g.pending.Some?)
    && g.known.Keys == g.retired.Keys + (if g.active.Some? then {g.active.value.generation} else {})
    && (g.active.Some? ==>
          g.active.value.generation !in g.retired
          && g.known[g.active.value.generation] == g.active.value.turn)
    && (g.pending.Some? ==> g.pending.value !in g.known && g.pending.value in h.issued)
    && g.known.Keys <= h.issued
    && (forall x :: x in g.retired ==> g.retired[x].generation == x && g.retired[x].turn == g.known[x])
    && (g.latest.None? <==> h.issued == {})
    && (g.latest.Some? ==> g.latest.value in g.known || g.latest == g.pending)
    && (g.pending.Some? ==> g.latest == g.pending)
    && (g.active.Some? ==> g.latest == Some(g.active.value.generation))
  }

  /** The counters account for every identity and every completion. */
  ghost predicate Accounted(h: History) {
    var g := h.gate;
    && g.advances == |g.retired|
    && |g.known| == |g.retired| + (if g.active.Some? then 1 else 0)
    && g.starts == |g.known| + (if g.pending.Some? then 1 else 0) + h.overwritten
    && g.starts == |h.issued|
    && g.acceptedCount + g.staleCount == h.presented
  }

  lemma RetireKeepsInv(h: History, reason: AdvanceReason)
    requires Inv(h) && Accounted(h)
    ensures Inv(h.(gate := h.gate.Retire(reason))) && Accounted(h.(gate := h.gate.Retire(reason)))
    ensures h.gate.Retire(reason).active.None?
  {
    var g := h.gate;
    if g.active.Some? {
      var id := g.active.value.generation;
      assert g.Retire(reason).retired.Keys == g.retired.Keys + {id};
      assert |g.Retire(reason).retired.Keys| == |g.retired.Keys| + 1;
    }
  }

  /** A start binds an identity that was never bound before. */
  lemma StartKeepsInv(h: History, turn: TurnId, newId: GenerationId)
    requires Inv(h) && Accounted(h) && newId !in h.issued
    ensures Inv(Step(h, StartOp(turn, newId))) && Accounted(Step(h, StartOp(turn, newId)))
  {
    RetireKeepsInv(h, NewTurn);
    BindKeepsInv(h.(gate := h.gate.Retire(NewTurn)), turn, newId);
  }

  lemma BindKeepsInv(h: History, turn: TurnId, newId: GenerationId)
    requires Inv(h) && Accounted(h) && h.gate.active.None? && newId !in h.issued
    ensures Inv(Step(h, StartOp(turn, newId))) && Accounted(Step(h, StartOp(turn, newId)))
  {
    var g := h.gate;
    var (g', id) := g.Start(turn, newId);
    assert id !in g.known;
    assert g'.known.Keys == g.known.Keys + {id};
    assert |g'.known.Keys| == |g.known.Keys| + 1;
  }

  lemma ResetKeepsInv(h: History, newId: GenerationId)
    requires Inv(h) && Accounted(h) && newId !in h.issued
    ensures Inv(Step(h, ResetOp(newId))) && Accounted(Step(h, ResetOp(newId)))
  {
    RetireKeepsInv(h, Reset);
  }

  lemma AdmitKeepsInv(h: History, turn: TurnId, id: GenerationId)
    requires Inv(h) && Accounted(h)
    ensures Inv(Step(h, AdmitOp(turn, id))) && Accounted(Step(h, AdmitOp(turn, id)))
  {
    hide Gate.Classify;
    var g, g' := h.gate, h.gate.Admit(turn, id);
    assert g' == g.(acceptedCount := g'.acceptedCount, staleCount := g'.staleCount);
    assert g'.retired == g.retired && g'.known == g.known && g'.active == g.active;
  }

  lemma StepKeepsInv(h: History, op: Op)
    requires Inv(h) && Accounted(h) && Enabled(h, op)
    ensures Inv(Step(h, op)) && Accounted(Step(h, op))
  {
    hide Inv, Accounted;
    match op
    case StartOp(turn, newId) => StartKeepsInv(h, turn, newId);
    case ResetOp(newId) => ResetKeepsInv(h, newId);
    case AdvanceOp(reason) => RetireKeepsInv(h, reason);
    case AdmitOp(turn, id) => AdmitKeepsInv(h, turn, id);
  }

  /** Over every run: one owner at a time, nothing both active and reserved, known is
      retired plus active, and all counters agree. */
  lemma {:induction false} RunIsSound(ops: seq<Op>)
    requires Legal(ops)
    ensures Inv(Run(ops)) && Accounted(Run(ops))
    decreases |ops|
  {
    hide Inv, Accounted, Step;
    if ops == [] {
      InitialIsSound();
    } else {
      RunIsSound(ops[..|ops| - 1]);
      StepKeepsInv(Run(ops[..|ops| - 1]), ops[|ops| - 1]);
    }
  }

  lemma InitialIsSound()
    ensures Inv(History(INITIAL_GATE, {}, 0, 0)) && Accounted(History(INITIAL_GATE, {}, 0, 0))
  {
  }

  /** What a classification means for the gate `g`. */
  ghost predicate ExactDecision(g: Gate, turn: TurnId, id: GenerationId, d: Decision) {
    && d.Valid()
    && (d.accepted <==> g.active == Some(Active(turn, id)))
    && (d.staleReason == Some(RetiredGeneration) <==> id in g.retired)
    && (d.staleReason == Some(UnknownGeneration) <==> id !in g.known)
    && (d.staleReason == Some(TurnMismatch) <==> g.Current() == Some(id) && g.active.value.turn != turn)
    && (id in g.retired ==> d.retiredBy == Some(g.retired[id].reason))
    && d.currentGeneration == g.Current()
  }

  /** Classification is exact in every reachable state, every decision obeys the decision's
      own rules, and the test for a known generation that is neither active nor retired
      never fires. */
  lemma ClassificationIsExact(ops: seq<Op>, turn: TurnId, id: GenerationId)
    requires Legal(ops)
    ensures ExactDecision(Run(ops).gate, turn, id, Run(ops).gate.Classify(turn, id))
    ensures id in Run(ops).gate.known && id !in Run(ops).gate.retired ==> Run(ops).gate.Current() == Some(id)
  {
    hide Inv, Accounted, Run, ExactDecision, Gate.Classify;
    RunIsSound(ops);
    ExactIn(Run(ops), turn, id);
  }

  lemma ExactIn(h: History, turn: TurnId, id: GenerationId)
    requires Inv(h)
    ensures ExactDecision(h.gate, turn, id, h.gate.Classify(turn, id))
    ensures id in h.gate.known && id !in h.gate.retired ==> h.gate.Current() == Some(id)
  {
  }

  // -------------------------------------------------------------- lifecycle

  datatype Stage =
    | Unissued
    | Reserved
    | IsActive(turn: TurnId)
    | IsRetired(turn: TurnId, reason: AdvanceReason)
    | Overwritten
  {
    function Rank(): nat {
      match this
      case Unissued => 0
      case Reserved => 1
      case IsActive(_) => 2
      case IsRetired(_, _) => 3
      case Overwritten => 3
    }
  }

  ghost function StageOf(h: History, id: GenerationId): Stage {
    var g := h.gate;
    if id in g.retired then IsRetired(g.retired[id].turn, g.retired[id].reason)
    else if g.Current() == Some(id) then IsActive(g.active.value.turn)
    else if g.pending == Some(id) then Reserved
    else if id in h.issued then Overwritten
    else Unissued
  }

  /** A generation only moves forward; its turn and its retirement reason never change. */
  ghost predicate Forward(a: Stage, b: Stage) {
    || a == b
    || (a.Rank() < b.Rank()
        && (a.IsActive? ==> b.IsRetired? && b.turn == a.turn)
        && (b.Overwritten? ==> a.Reserved? || a.Unissued?))
  }

  lemma StepMovesForward(h: History, op: Op, id: GenerationId)
    requires Inv(h) && Enabled(h, op)
    ensures Forward(StageOf(h, id), StageOf(Step(h, op), id))
  {
  }

  lemma {:induction false} GenerationsMoveForward(ops: seq<Op>, n: nat, id: GenerationId)
    requires Legal(ops) && n <= |ops|
    ensures Legal(ops[..n])
    ensures Forward(StageOf(Run(ops[..n]), id), StageOf(Run(ops), id))
    decreases |ops|
  {
    hide StageOf, Step, Inv, Accounted;
    if n == |ops| {
      assert ops[..n] == ops;
    } else {
      var init := ops[..|ops| - 1];
      assert init[..n] == ops[..n];
      GenerationsMoveForward(init, n, id);
      RunIsSound(init);
      StepMovesForward(Run(init), ops[|ops| - 1], id);
    }
  }

  /** Once retired, a generation is refused for good, with the reason it was retired by. */
  lemma RetiredIsForever(ops: seq<Op>, n: nat, id: GenerationId, turn: TurnId)
    requires Legal(ops) && n <= |ops| && id in Run(ops[..n]).gate.retired
    ensures var d := Run(ops).gate.Classify(turn, id);
            && !d.accepted && d.staleReason == Some(RetiredGeneration)
            && d.retiredBy == Some(Run(ops[..n]).gate.retired[id].reason)
  {
    hide Inv, Accounted, Step, Run, Legal;
    GenerationsMoveForward(ops, n, id);
  }

  // ------------------------------------------------------- reading the calls

  /** Some turn was started. */
  predicate Started(ops: seq<Op>) { exists k :: 0 <= k < |ops| && ops[k].StartOp? }

  /** The latest start or reset is a reset, with a start before it. */
  predicate Reserving(ops: seq<Op>)
    decreases |ops|
  {
    if ops == [] then false
    else
      var init := ops[..|ops| - 1];
      match ops[|ops| - 1]
      case StartOp(_, _) => false
      case ResetOp(_) => Started(init)
      case _ => Reserving(init)
  }

  /** The identity a start or a reset returned last; a start takes the reserved one. */
  function LastIssued(ops: seq<Op>): Option<GenerationId>
    decreases |ops|
  {
    if ops == [] then None
    else
      var init := ops[..|ops| - 1];
      match ops[|ops| - 1]
      case StartOp(_, newId) => if Reserving(init) then LastIssued(init) else Some(newId)
      case ResetOp(newId) => if Started(init) then Some(newId) else None
      case _ => LastIssued(init)
  }

  /** The turn and generation of the latest start, unless retired since. */
  function Owner(ops: seq<Op>): Option<Active>
    decreases |ops|
  {
    if ops == [] then None
    else
      var init := ops[..|ops| - 1];
      match ops[|ops| - 1]
      case StartOp(turn, _) =>
        if LastIssued(ops).Some? then Some(Active(turn, LastIssued(ops).value)) else None
      case AdmitOp(_, _) => Owner(init)
      case _ => None
  }

  /** The completions presented by the owner of their moment. */
  function AcceptedIn(ops: seq<Op>): nat
    decreases |ops|
  {
    if ops == [] then 0
    else
      var init, op := ops[..|ops| - 1], ops[|ops| - 1];
      AcceptedIn(init) + (if op.AdmitOp? && Owner(init) == Some(Active(op.turn, op.id)) then 1 else 0)
  }

  lemma StartedGrows(ops: seq<Op>)
    requires ops != []
    ensures Started(ops) <==> Started(ops[..|ops| - 1]) || ops[|ops| - 1].StartOp?
  {
    var init := ops[..|ops| - 1];
    assert forall k :: 0 <= k < |init| ==> init[k] == ops[k];
    if Started(init) {
      var k :| 0 <= k < |init| && init[k].StartOp?;
      assert ops[k].StartOp?;
    }
    if ops[|ops| - 1].StartOp? { assert ops[|ops| - 1].StartOp?; }
  }

  /** Who owns the gate, what is reserved and what was issued last is what the calls say;
      nothing is issued before the first start. */
  lemma {:induction false} GateIsRead(ops: seq<Op>)
    requires Legal(ops)
    ensures var h := Run(ops);
            && h.gate.active == Owner(ops) && h.gate.latest == LastIssued(ops)
            && h.gate.pending == (if Reserving(ops) then LastIssued(ops) else None)
            && (h.issued == {} <==> !Started(ops)) && (LastIssued(ops).Some? <==> Started(ops))
            && (Reserving(ops) || Owner(ops).Some? ==> Started(ops))
            && h.gate.acceptedCount == AcceptedIn(ops)
    decreases |ops|
  {
    hide Inv, Accounted, Started, Gate.Classify;
    if ops == [] {
      assert !Started(ops) by { NothingStarted(); }
    } else {
      var init, op := ops[..|ops| - 1], ops[|ops| - 1];
      GateIsRead(init);
      RunIsSound(init);
      StartedGrows(ops);
      if op.AdmitOp? {
        assert ExactDecision(Run(init).gate, op.turn, op.id, Run(init).gate.Classify(op.turn, op.id)) by {
          ExactIn(Run(init), op.turn, op.id);
        }
      }
      LatestExists(Run(init));
    }
  }

  lemma NothingStarted()
    ensures !Started([])
  {
  }

  lemma LatestExists(h: History)
    requires Inv(h)
    ensures h.gate.latest.None? <==> h.issued == {}
  {
  }

  /** A start returns the reserved identity if there is one, else the new one, and makes it
      current in the given turn. */
  lemma StartMakesCurrent(ops: seq<Op>, turn: TurnId, newId: GenerationId)
    requires Legal(ops) && newId !in Run(ops).issued
    ensures var (g, id) := Run(ops).gate.Start(turn, newId);
            && Some(id) == (if Reserving(ops) then LastIssued(ops) else Some(newId))
            && g.active == Some(Active(turn, id)) && g.pending.None?
            && g.Classify(turn, id).accepted
  {
    hide Inv, Accounted, Gate.Classify, Run, Legal;
    GateIsRead(ops);
    RunIsSound(ops);
    var h' := Step(Run(ops), StartOp(turn, newId));
    StepKeepsInv(Run(ops), StartOp(turn, newId));
    ExactIn(h', turn, Run(ops).gate.Start(turn, newId).1);
  }

  /** A reset returns nothing if and only if no turn was ever started; otherwise the identity
      issued last, whether its turn still runs, is terminal, or never began, and the new one. */
  lemma ResetReturnsIff(ops: seq<Op>, newId: GenerationId)
    requires Legal(ops)
    ensures Run(ops).gate.ResetTo(newId).1.None? <==> !Started(ops)
    ensures Started(ops) ==>
              LastIssued(ops).Some? && Run(ops).gate.ResetTo(newId).1 == Some((LastIssued(ops).value, newId))
  {
    hide Accounted, Gate.Classify, Run, Legal, Started, LastIssued, Reserving, Owner;
    GateIsRead(ops);
    RunIsSound(ops);
  }

  /** What `op` writes down about the generation it retires. */
  function ReasonOf(op: Op): Option<AdvanceReason> {
    match op
    case StartOp(_, _) => Some(NewTurn)
    case ResetOp(_) => Some(AdvanceReason.Reset)
    case AdvanceOp(reason) => Some(reason)
    case AdmitOp(_, _) => None
  }

  /** Call `i` retires generation `id`. */
  predicate RetiresAt(ops: seq<Op>, i: nat, id: GenerationId) {
    && i < |ops| && ReasonOf(ops[i]).Some?
    && Owner(ops[..i]).Some? && Owner(ops[..i]).value.generation == id
  }

  lemma RetireOnce(h: History, op: Op, id: GenerationId)
    requires Inv(h) && Enabled(h, op)
    ensures var h' := Step(h, op);
            && (id in h.gate.retired ==> id in h'.gate.retired && h'.gate.retired[id] == h.gate.retired[id])
            && (h.gate.Current() == Some(id) && ReasonOf(op).Some? ==>
                  id in h'.gate.retired
                  && h'.gate.retired[id] == Retired(h.gate.active.value.turn, id, ReasonOf(op).value))
            && (id in h'.gate.retired && id !in h.gate.retired ==>
                  h.gate.Current() == Some(id) && ReasonOf(op).Some?)
  {
  }

  /** A generation is retired, in its own turn, by the call that took it from being current,
      and the reason kept for good is that call's: a start's is NEW_TURN, a reset's RESET, an
      advance's its argument. */
  lemma {:induction false} RetirementIsExact(ops: seq<Op>, i: nat, id: GenerationId)
    requires Legal(ops) && RetiresAt(ops, i, id)
    ensures id in Run(ops).gate.retired
    ensures Run(ops).gate.retired[id] == Retired(Owner(ops[..i]).value.turn, id, ReasonOf(ops[i]).value)
    decreases |ops|
  {
    hide Inv, Accounted, Gate.Classify, Gate.ResetTo, Gate.Start, Gate.Retire, Step, Owner;
    var init := ops[..|ops| - 1];
    RunIsSound(init);
    GateIsRead(init);
    RetireOnce(Run(init), ops[|ops| - 1], id);
    if i < |ops| - 1 {
      assert init[..i] == ops[..i];
      RetirementIsExact(init, i, id);
    }
  }

  /** No generation is retired in any other way. */
  lemma {:induction false} RetiredOnlyBy(ops: seq<Op>, id: GenerationId) returns (i: nat)
    requires Legal(ops) && id in Run(ops).gate.retired
    ensures RetiresAt(ops, i, id)
    decreases |ops|
  {
    hide Inv, Accounted, Gate.Classify, Gate.ResetTo, Gate.Start, Gate.Retire, Owner;
    i := 0;
    if ops != [] {
      hide Step;
      var init := ops[..|ops| - 1];
      RunIsSound(init);
      GateIsRead(init);
      RetireOnce(Run(init), ops[|ops| - 1], id);
      if id in Run(init).gate.retired {
        i := RetiredOnlyBy(init, id);
        assert init[..i] == ops[..i];
      } else {
        i := |ops| - 1;
      }
    }
  }

  // ------------------------------------------------------------------ reset

  ghost predicate KeepsReservation(op: Op) { op.AdvanceOp? || op.AdmitOp? }

  lemma {:induction false} ReservationWaits(ops: seq<Op>, n: nat, id: GenerationId)
    requires Legal(ops) && n <= |ops| && Run(ops[..n]).gate.pending == Some(id)
    requires forall k :: n <= k < |ops| ==> KeepsReservation(ops[k])
    ensures Run(ops).gate.pending == Some(id)
    decreases |ops|
  {
    if n == |ops| {
      assert ops[..n] == ops;
    } else {
      var init := ops[..|ops| - 1];
      assert init[..n] == ops[..n];
      ReservationWaits(init, n, id);
    }
  }

  lemma ResetReserves(h: History, newId: GenerationId)
    requires Inv(h) && newId !in h.issued && h.gate.ResetTo(newId).1.Some?
    ensures h.gate.ResetTo(newId).1.value.0 != newId && h.gate.ResetTo(newId).1.value.1 == newId
    ensures StageOf(Step(h, ResetOp(newId)), newId) == Reserved
    ensures var left := StageOf(Step(h, ResetOp(newId)), h.gate.ResetTo(newId).1.value.0);
            left.IsRetired? || left.Overwritten?
  {
  }

  /** A reset after the first start returns the identity issued last and a different one,
      and the next start consumes exactly that one, whatever completions and advances come in
      between. */
  lemma ResetReservesTheNextStart(before: seq<Op>, newId: GenerationId, all: seq<Op>, turn: TurnId, other: GenerationId)
    requires Legal(all) && |before| < |all| && all[..|before|] == before && all[|before|] == ResetOp(newId)
    requires forall k :: |before| < k < |all| ==> KeepsReservation(all[k])
    requires Started(before)
    ensures var ids := Run(before).gate.ResetTo(newId).1;
            && ids.Some? && Some(ids.value.0) == LastIssued(before) && ids.value.0 != ids.value.1
            && Run(all).gate.Start(turn, other).1 == ids.value.1
  {
    hide Inv, Accounted, StageOf, Step, Gate.Classify, Gate.ResetTo, Gate.Start, Run, Started, LastIssued;
    var n := |before| + 1;
    AfterReset(before, newId, all);
    ReservedIsPending(Run(all[..n]), newId);
    ReservationWaits(all, n, newId);
    StartTakesReservation(Run(all), newId, turn, other);
  }

  /** The identity issued last before a reset is never accepted again, in any turn, whatever
      happens for the rest of the run, new starts and resets included. */
  lemma ResetRetiresForGood(before: seq<Op>, newId: GenerationId, all: seq<Op>, turn: TurnId)
    requires Legal(all) && |before| < |all| && all[..|before|] == before && all[|before|] == ResetOp(newId)
    requires Started(before)
    ensures LastIssued(before).Some? && !Run(all).gate.Classify(turn, LastIssued(before).value).accepted
  {
    hide Inv, Accounted, StageOf, Step, Gate.Classify, Gate.ResetTo, Run, Started, LastIssued;
    AfterReset(before, newId, all);
    var previous := LastIssued(before).value;
    GenerationsMoveForward(all, |before| + 1, previous);
    RunIsSound(all);
    LateStagesAreRefused(Run(all), previous, turn);
  }

  lemma AfterReset(before: seq<Op>, newId: GenerationId, all: seq<Op>)
    requires Legal(all) && |before| < |all| && all[..|before|] == before && all[|before|] == ResetOp(newId)
    requires Started(before)
    ensures LastIssued(before).Some? && LastIssued(before) != Some(newId)
    ensures Run(before).gate.ResetTo(newId).1 == Some((LastIssued(before).value, newId))
    ensures StageOf(Run(all[..|before| + 1]), newId) == Reserved
    ensures var left := StageOf(Run(all[..|before| + 1]), LastIssued(before).value);
            left.IsRetired? || left.Overwritten?
  {
    hide Inv, Accounted, StageOf, Step, Gate.ResetTo, Started, LastIssued;
    var reset := all[..|before| + 1];
    assert reset[..|before|] == before;
    GenerationsMoveForward(all, |before|, newId);
    GenerationsMoveForward(all, |before| + 1, newId);
    RunIsSound(before);
    ResetReturnsIff(before, newId);
    assert Run(reset) == Step(Run(before), ResetOp(newId));
    assert Enabled(Run(before), ResetOp(newId));
    ResetReserves(Run(before), newId);
  }

  lemma ReservedIsPending(h: History, id: GenerationId)
    requires StageOf(h, id) == Reserved
    ensures h.gate.pending == Some(id)
  {
  }

  lemma StartTakesReservation(h: History, id: GenerationId, turn: TurnId, other: GenerationId)
    requires h.gate.pending == Some(id)
    ensures h.gate.Start(turn, other).1 == id
  {
  }

  lemma LateStagesAreRefused(h: History, id: GenerationId, turn: TurnId)
    requires Inv(h) && (StageOf(h, id).IsRetired? || StageOf(h, id).Overwritten?)
    ensures !h.gate.Classify(turn, id).accepted
  {
  }

  // -------------------------------------------------------------- the class

  class RealtimeGenerationGate {
    var active: Option<Active>
    var pendingGenerationId: Option<GenerationId>
    var latestGenerationId: Option<GenerationId>
    var retired: map<GenerationId, Retired>
    var knownTurns: map<GenerationId, TurnId>
    var generationStartCount: nat
    var generationAdvanceCount: nat
    var acceptedCompletionCount: nat
    var staleCompletionCount: nat

    ghost function View(): Gate
      reads this
    {
      Gate(active, pendingGenerationId, latestGenerationId, retired, knownTurns, generationStartCount,
           generationAdvanceCount, acceptedCompletionCount, staleCompletionCount)
    }

    constructor ()
      ensures View() == INITIAL_GATE
    {
      active, pendingGenerationId, latestGenerationId := None, None, None;
      retired, knownTurns := map[], map[];
      generationStartCount, generationAdvanceCount := 0, 0;
      acceptedCompletionCount, staleCompletionCount := 0, 0;
    }

    /** `newId` stands for the identity `GenerationId.new()` returns if it is called. */
    method StartGeneration(turn: TurnId, newId: GenerationId) returns (id: GenerationId)
      modifies this
      ensures (View(), id) == old(View()).Start(turn, newId)
    {
      if active.Some? {
        var was := RetireActiveLocked(NewTurn);
      }
      if pendingGenerationId.None? {
        id := newId;
        generationStartCount := generationStartCount + 1;
      } else {
        id := pendingGenerationId.value;
        pendingGenerationId := None;
      }
      active := Some(Active(turn, id));
      knownTurns := knownTurns[id := turn];
      latestGenerationId := Some(id);
    }

    method ResetGeneration(newId: GenerationId) returns (ids: Option<(GenerationId, GenerationId)>)
      modifies this
      ensures (View(), ids) == old(View()).ResetTo(newId)
    {
      var previous: Option<GenerationId>;
      if active.Some? {
        previous := Some(active.value.generation);
        var was := RetireActiveLocked(Reset);
      } else {
        previous := if pendingGenerationId.Some? then pendingGenerationId else latestGenerationId;
      }
      if previous.None? {
        return None;
      }
      pendingGenerationId := Some(newId);
      latestGenerationId := Some(newId);
      generationStartCount := generationStartCount + 1;
      ids := Some((previous.value, newId));
    }

    method Advance(reason: AdvanceReason) returns (id: Option<GenerationId>)
      modifies this
      ensures View() == old(View()).Retire(reason) && id == old(View()).Current()
    {
      id := RetireActiveLocked(reason);
    }

    /** `deliver` receives the value exactly once, inside the section that accepted it. */
    method ApplyCompletion<V>(envelope: Envelope<V>) returns (decision: Decision, delivered: seq<V>)
      modifies this
      ensures View() == old(View()).Admit(envelope.turn, envelope.generation)
      ensures decision == old(View()).Classify(envelope.turn, envelope.generation)
      ensures delivered == if decision.accepted then [envelope.value] else []
    {
      decision := AdmitCompletionLocked(envelope.turn, envelope.generation);
      delivered := if decision.accepted then [envelope.value] else [];
    }

    method AdmitCompletionLocked(turn: TurnId, id: GenerationId) returns (decision: Decision)
      modifies this
      ensures View() == old(View()).Admit(turn, id)
      ensures decision == old(View()).Classify(turn, id)
    {
      var current := if active.Some? then Some(active.value.generation) else None;
      if id in retired {
        staleCompletionCount := staleCompletionCount + 1;
        return Decision(false, Some(RetiredGeneration), Some(retired[id].reason), current);
      }
      if id !in knownTurns || active.None? {
        staleCompletionCount := staleCompletionCount + 1;
        return Decision(false, Some(UnknownGeneration), None, current);
      }
      if id != active.value.generation {
        staleCompletionCount := staleCompletionCount + 1;
        return Decision(false, Some(UnknownGeneration), None, current);
      }
      if turn != active.value.turn {
        staleCompletionCount := staleCompletionCount + 1;
        return Decision(false, Some(TurnMismatch), None, current);
      }
      acceptedCompletionCount := acceptedCompletionCount + 1;
      decision := Decision(true, None, None, current);
    }

    method RetireActiveLocked(reason: AdvanceReason) returns (id: Option<GenerationId>)
      modifies this
      ensures View() == old(View()).Retire(reason) && id == old(View()).Current()
    {
      if active.None? {
        return None;
      }
      var a := active.value;
      active := None;
      retired := retired[a.generation := Retired(a.turn, a.generation, reason)];
      generationAdvanceCount := generationAdvanceCount + 1;
      id := Some(a.generation);
    }
  }
}
