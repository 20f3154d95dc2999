/** One text-chat turn of framework/facade.py: the `ask_stream` generator as a program
    counter between its checks and emissions, with `interrupt_result` and `close` landing
    between any two of its steps and a model that answers as it likes. */
module TextChatTurn {
  import opened Common

  datatype InterruptOutcome = Accepted | AlreadyClosed | NoActiveTurn

  /** Canonical events; an event's sequence number is its position among those emitted. */
  datatype Event =
    | TurnStarted
    | ResponseStarted
    | ResponseDelta(index: nat, text: string)
    | ResponseCompleted(text: string)
    | TurnCompleted
    | TurnInterrupted
    | TurnFailed
    | InterruptRequested(outcome: InterruptOutcome)
    | SessionClosed

  datatype SessionState = IdleState | Responding | Interrupted | ErrorState | ClosedState

  /** How a generator that is past its loop got there. */
  datatype Exit = ByCompletion | ByInterrupt | ByFailure | ByClose | ByAbandon

  datatype Pc =
    | NotStarted
    | Begun                      // found the session open
    | HasContext                 // active context set, interrupt flag not yet reset
    | Opening                    // before TURN_STARTED
    | Opened                     // before RESPONSE_STARTED
    | Pulling                    // waiting for the model
    | Got(chunk: string)         // before the closed check
    | NotClosed(chunk: string)   // before the interrupt check
    | Delivering(chunk: string)  // before the delta
    | Yielded                    // suspended at the yield
    | Interrupting               // before TURN_INTERRUPTED
    | Exhausted                  // the model is done, before the closed check
    | Completing                 // before RESPONSE_COMPLETED
    | Completed                  // before TURN_COMPLETED
    | Raised                     // an exception, before the closed check
    | FailingTurn                // before TURN_FAILED
    | Leaving(exit: Exit)        // in the finally block, context still active
    | Left(exit: Exit)           // context cleared, before the return to idle
    | Done(exit: Exit)
    | NeverRan                   // found the session closed

  /** Where the one effective `close` stands. */
  datatype Closer = NotCalled | Noted(hadContext: bool) | StateSet | Emitted | Finished

  datatype Turn = Turn(
    pc: Pc,
    parts: seq<string>,          // response_parts; delta_index is its length
    closed: bool,
    interrupt: bool,
    active: bool,
    state: SessionState,
    closer: Closer,
    closedAt: Option<Pc>,        // where the generator stood when the session closed
    endedUnder: Option<Closer>,  // where a close stood when the generator ended the turn
    events: seq<Event>,          // emitted
    heard: seq<Event>)           // received by a callback registered before the turn

  const INITIAL_TURN := Turn(NotStarted, [], false, false, false, IdleState, NotCalled, None, None, [], [])

  datatype Label =
    | Advance                    // the generator's next step, where it has only one
    | ModelSends(chunk: string)
    | ModelEnds
    | ModelRaises
    | HostResumes
    | HostThrows
    | HostAbandons
    | Interrupt
    | CloseSection
    | CloseStep

  predicate Enabled(t: Turn, l: Label) {
    match l
    case Advance =>
      !(t.pc.Pulling? || t.pc.Yielded? || t.pc.Done? || t.pc.NeverRan?)
    case ModelSends(_) => t.pc.Pulling?
    case ModelEnds => t.pc.Pulling?
    case ModelRaises => t.pc.Pulling?
    case HostResumes => t.pc.Yielded?
    case HostThrows => t.pc.Yielded?
    case HostAbandons => t.pc.Yielded?
    case Interrupt => true
    case CloseSection => true
    case CloseStep => t.closer == Noted(true) || t.closer.StateSet? || t.closer.Emitted?
  }

  function Concat(parts: seq<string>): string {
    if parts == [] then "" else Concat(parts[..|parts| - 1]) + parts[|parts| - 1]
  }

  /** An emission goes to the callbacks still registered; the end of a close clears them. */
  function Emit(t: Turn, e: Event): Turn {
    t.(events := t.events + [e],
       heard := if t.closer.Finished? then t.heard else t.heard + [e],
       endedUnder := if IsTurnEnd(e) then Some(t.closer) else t.endedUnder)
  }

  /** The generator. */
  function Next(t: Turn): Turn
    requires Enabled(t, Advance)
  {
    match t.pc
    case NotStarted => t.(pc := if t.closed then NeverRan else Begun)
    case Begun => t.(active := true, pc := HasContext)
    case HasContext => t.(interrupt := false, state := Responding, pc := Opening)
    case Opening => Emit(t, TurnStarted).(pc := Opened)
    case Opened => Emit(t, ResponseStarted).(pc := Pulling)
    case Got(chunk) => t.(pc := if t.closed then Leaving(ByClose) else NotClosed(chunk))
    case NotClosed(chunk) =>
      if t.interrupt then t.(state := Interrupted, pc := Interrupting)
      else t.(pc := if chunk == "" then Pulling else Delivering(chunk))
    case Delivering(chunk) =>
      Emit(t, ResponseDelta(|t.parts|, chunk)).(pc := Yielded, parts := t.parts + [chunk])
    case Interrupting => Emit(t, TurnInterrupted).(pc := Leaving(ByInterrupt))
    case Exhausted => t.(pc := if t.closed then Leaving(ByClose) else Completing)
    case Completing => Emit(t, ResponseCompleted(Concat(t.parts))).(pc := Completed)
    case Completed => Emit(t, TurnCompleted).(pc := Leaving(ByCompletion))
    case Raised =>
      if t.closed then t.(pc := Leaving(ByClose)) else t.(state := ErrorState, pc := FailingTurn)
    case FailingTurn => Emit(t, TurnFailed).(pc := Leaving(ByFailure))
    case Leaving(exit) => t.(active := false, pc := Left(exit))
    case Left(exit) =>
      t.(state := if !t.closed && (exit.ByCompletion? || t.state.Responding? || t.state.Interrupted?
                                   || t.state.ErrorState?)
                  then IdleState else t.state,
         pc := Done(exit))
  }

  function Apply(t: Turn, l: Label): Turn
    requires Enabled(t, l)
  {
    match l
    case Advance => Next(t)
    case ModelSends(chunk) => t.(pc := Got(chunk))
    case ModelEnds => t.(pc := Exhausted)
    case ModelRaises => t.(pc := Raised)
    case HostResumes => t.(pc := Pulling)
    case HostThrows => t.(pc := Raised)
    case HostAbandons => t.(pc := Leaving(ByAbandon))
    case Interrupt =>
      var outcome := if t.closed then AlreadyClosed else if !t.active then NoActiveTurn else Accepted;
      Emit(t, InterruptRequested(outcome)).(interrupt := t.interrupt || outcome.Accepted?)
    case CloseSection =>
      if t.closed then t
      else t.(closed := true, interrupt := true, closer := Noted(t.active), closedAt := Some(t.pc))
    case CloseStep =>
      match t.closer
      case Noted(_) => t.(state := ClosedState, closer := StateSet)
      case StateSet => Emit(t, SessionClosed).(closer := Emitted)
      case _ => t.(active := false, closer := Finished)       // and clears the callbacks
  }

  // ---------------------------------------------------------------- grammar

  /** The events of the generator itself. */
  predicate OfGenerator(e: Event) { !e.InterruptRequested? && !e.SessionClosed? }

  function Generated(events: seq<Event>): seq<Event> {
    if events == [] then []
    else
      var e := events[|events| - 1];
      Generated(events[..|events| - 1]) + if OfGenerator(e) then [e] else []
  }

  /** Deltas numbered from zero, one for each part. */
  function Deltas(parts: seq<string>): seq<Event> {
    if parts == [] then []
    else Deltas(parts[..|parts| - 1]) + [ResponseDelta(|parts| - 1, parts[|parts| - 1])]
  }

  /** What the generator has emitted when it stands at `pc`. */
  function Script(pc: Pc, parts: seq<string>): seq<Event> {
    match pc
    case NotStarted => []
    case NeverRan => []
    case Begun => []
    case HasContext => []
    case Opening => []
    case Opened => [TurnStarted]
    case Completed => Preamble(parts) + [ResponseCompleted(Concat(parts))]
    case Leaving(exit) => Preamble(parts) + Ending(exit, parts)
    case Left(exit) => Preamble(parts) + Ending(exit, parts)
    case Done(exit) => Preamble(parts) + Ending(exit, parts)
    case _ => Preamble(parts)
  }

  function Preamble(parts: seq<string>): seq<Event> {
    [TurnStarted, ResponseStarted] + Deltas(parts)
  }

  function Ending(exit: Exit, parts: seq<string>): seq<Event> {
    match exit
    case ByCompletion => [ResponseCompleted(Concat(parts)), TurnCompleted]
    case ByInterrupt => [TurnInterrupted]
    case ByFailure => [TurnFailed]
    case ByClose => []
    case ByAbandon => []
  }

  /** The generator's own terminal events. */
  predicate IsTurnEnd(e: Event) { e.TurnCompleted? || e.TurnInterrupted? || e.TurnFailed? }

  predicate IsTerminal(e: Event) { IsTurnEnd(e) || e.SessionClosed? }

  function Terminals(events: seq<Event>): nat {
    if events == [] then 0
    else Terminals(events[..|events| - 1]) + if IsTerminal(events[|events| - 1]) then 1 else 0
  }

  /** Terminal events the generator has emitted. */
  function OwnTerminals(pc: Pc): nat {
    match pc
    case Leaving(exit) => if exit.ByClose? || exit.ByAbandon? then 0 else 1
    case Left(exit) => if exit.ByClose? || exit.ByAbandon? then 0 else 1
    case Done(exit) => if exit.ByClose? || exit.ByAbandon? then 0 else 1
    case _ => 0
  }

  /** Of those, the ones a registered callback received. */
  function HeardEnds(t: Turn): nat {
    if t.endedUnder.Some? && !t.endedUnder.value.Finished? then 1 else 0
  }

  function CloseTerminals(closer: Closer): nat {
    if closer.Emitted? || closer.Finished? then 1 else 0
  }

  // -------------------------------------------------------------- invariant

  /** The generator's context is the session's active one, unless a close cleared it. */
  predicate HasTurn(p: Pc) {
    !(p.NotStarted? || p.Begun? || p.Left? || p.Done? || p.NeverRan?)
  }

  /** With a closed session it leaves at its next closed check, without a terminal event. */
  predicate BeforeCheck(p: Pc) {
    || p.HasContext? || p.Opening? || p.Opened? || p.Pulling? || p.Got? || p.Delivering? || p.Yielded?
    || p.Exhausted? || p.Raised?
  }

  /** Past its closed check or its terminal event, with the context still active. */
  predicate Window(p: Pc) {
    || p.NotClosed? || p.Interrupting? || p.Completing? || p.Completed? || p.FailingTurn?
    || (p.Leaving? && OwnTerminals(p) == 1)
  }

  predicate Over(p: Pc) { p.Leaving? || p.Left? || p.Done? }

  /** Where a generator can be now if the session was closed when it stood at `p`. */
  predicate Tracks(p: Pc, t: Turn) {
    match p
    case NotStarted => t.pc.NotStarted? || t.pc.NeverRan?
    case NeverRan => t.pc.NeverRan?
    case Begun => t.pc.Begun? || BeforeCheck(t.pc) || (Over(t.pc) && OwnTerminals(t.pc) == 0)
    case Leaving(exit) => Over(t.pc) && t.pc.exit == exit
    case Left(exit) => Over(t.pc) && t.pc.exit == exit
    case Done(exit) => t.pc == p
    case _ =>
      if BeforeCheck(p) then BeforeCheck(t.pc) || (Over(t.pc) && OwnTerminals(t.pc) == 0)
      else (Window(t.pc) && (t.pc.NotClosed? ==> t.interrupt)) || (Over(t.pc) && OwnTerminals(t.pc) == 1)
  }

  ghost predicate CloseInv(t: Turn) {
    && (t.closed <==> t.closedAt.Some?) && (t.closed <==> !t.closer.NotCalled?)
    && (t.closed && Over(t.closedAt.value) ==> !t.closedAt.value.exit.ByClose?)
    && (t.closed ==> Tracks(t.closedAt.value, t) && (t.closer == Noted(false) <==> !HasTurn(t.closedAt.value)))
    && (!t.closed ==> (t.active <==> HasTurn(t.pc)) && !t.pc.NeverRan?
                      && (Over(t.pc) ==> !t.pc.exit.ByClose?))
  }

  predicate BeforeLoop(p: Pc) {
    p.NotStarted? || p.NeverRan? || p.Begun? || p.HasContext? || p.Opening? || p.Opened?
  }

  /** Nothing has been delivered before the loop. */
  predicate PartsFit(t: Turn) {
    BeforeLoop(t.pc) ==> t.parts == []
  }

  ghost predicate Inv(t: Turn) {
    && CloseInv(t) && PartsFit(t)
    && Generated(t.events) == Script(t.pc, t.parts)
    && Terminals(t.events) == OwnTerminals(t.pc) + CloseTerminals(t.closer)
  }

  lemma EarlyStaysEarly(t: Turn)
    requires Enabled(t, Advance) && t.closed && BeforeCheck(t.pc)
    ensures BeforeCheck(Next(t).pc) || (Over(Next(t).pc) && OwnTerminals(Next(t).pc) == 0)
  {
    hide Concat;
  }

  lemma LateStaysLate(t: Turn)
    requires Enabled(t, Advance) && Window(t.pc) && (t.pc.NotClosed? ==> t.interrupt)
    ensures (Window(Next(t).pc) || (Over(Next(t).pc) && OwnTerminals(Next(t).pc) == 1)) && !Next(t).pc.NotClosed?
  {
    hide Concat;
  }

  lemma OverStaysOver(t: Turn)
    requires Enabled(t, Advance) && Over(t.pc)
    ensures Over(Next(t).pc) && Next(t).pc.exit == t.pc.exit && OwnTerminals(Next(t).pc) == OwnTerminals(t.pc)
  {
  }

  lemma TracksAdvance(p: Pc, t: Turn)
    requires t.closed && Tracks(p, t) && Enabled(t, Advance)
    ensures Tracks(p, Next(t))
  {
    hide Next, OwnTerminals;
    if Over(t.pc) { OverStaysOver(t); }
    else if BeforeCheck(t.pc) { EarlyStaysEarly(t); }
    else if Window(t.pc) { LateStaysLate(t); }
    else { StartSteps(t); }
  }

  lemma StartSteps(t: Turn)
    requires t.closed && Enabled(t, Advance) && !Over(t.pc) && !BeforeCheck(t.pc) && !Window(t.pc)
    ensures t.pc.NotStarted? ==> Next(t).pc.NeverRan?
    ensures t.pc.Begun? ==> Next(t).pc.HasContext?
    ensures t.pc.NotStarted? || t.pc.Begun?
  {
  }

  lemma OpenAdvance(t: Turn)
    requires Enabled(t, Advance) && !t.closed
    requires (t.active <==> HasTurn(t.pc)) && (Over(t.pc) ==> !t.pc.exit.ByClose?)
    ensures (Next(t).active <==> HasTurn(Next(t).pc)) && !Next(t).pc.NeverRan?
    ensures Over(Next(t).pc) ==> !Next(t).pc.exit.ByClose?
  {
    hide Concat;
  }

  lemma AdvanceLeavesTheClose(t: Turn)
    requires Enabled(t, Advance)
    ensures Next(t).closed == t.closed && Next(t).closer == t.closer && Next(t).closedAt == t.closedAt
  {
    hide Concat;
  }

  lemma AdvanceKeepsCloseInv(t: Turn)
    requires CloseInv(t) && Enabled(t, Advance)
    ensures CloseInv(Next(t))
  {
    hide Next, Tracks, HasTurn, Over, Enabled;
    AdvanceLeavesTheClose(t);
    if t.closed { TracksAdvance(t.closedAt.value, t); } else { OpenAdvance(t); }
  }

  lemma StepKeepsCloseInv(t: Turn, l: Label)
    requires CloseInv(t) && Enabled(t, l)
    ensures CloseInv(Apply(t, l))
  {
    hide Concat, Next;
    if l.Advance? { AdvanceKeepsCloseInv(t); }
  }

  lemma GeneratedGrows(events: seq<Event>, e: Event)
    ensures Generated(events + [e]) == Generated(events) + if OfGenerator(e) then [e] else []
    ensures Terminals(events + [e]) == Terminals(events) + if IsTerminal(e) then 1 else 0
  {
    assert (events + [e])[..|events|] == events;
  }

  lemma DeltasGrow(parts: seq<string>, chunk: string)
    ensures Deltas(parts + [chunk]) == Deltas(parts) + [ResponseDelta(|parts|, chunk)]
    ensures Preamble(parts + [chunk]) == Preamble(parts) + [ResponseDelta(|parts|, chunk)]
  {
    var e := ResponseDelta(|parts|, chunk);
    DeltasCons(parts, chunk);
    hide Deltas;
    ConcatAssoc([TurnStarted, ResponseStarted], Deltas(parts), [e]);
  }

  lemma DeltasCons(parts: seq<string>, chunk: string)
    ensures Deltas(parts + [chunk]) == Deltas(parts) + [ResponseDelta(|parts|, chunk)]
  {
    assert (parts + [chunk])[..|parts|] == parts && (parts + [chunk])[|parts|] == chunk;
  }

  lemma PreambleFacts(parts: seq<string>)
    ensures Preamble([]) == [TurnStarted] + [ResponseStarted]
    ensures Preamble(parts) + [] == Preamble(parts)
    ensures (Preamble(parts) + [ResponseCompleted(Concat(parts))]) + [TurnCompleted]
            == Preamble(parts) + [ResponseCompleted(Concat(parts)), TurnCompleted]
  {
  }

  /** The event the generator's step from `p` emits. */
  function Emits(p: Pc, parts: seq<string>): Option<Event> {
    match p
    case Opening => Some(TurnStarted)
    case Opened => Some(ResponseStarted)
    case Delivering(chunk) => Some(ResponseDelta(|parts|, chunk))
    case Interrupting => Some(TurnInterrupted)
    case Completing => Some(ResponseCompleted(Concat(parts)))
    case Completed => Some(TurnCompleted)
    case FailingTurn => Some(TurnFailed)
    case _ => None
  }

  lemma SilentStep(t: Turn)
    requires Enabled(t, Advance) && PartsFit(t) && Emits(t.pc, t.parts).None?
    ensures Next(t).events == t.events && Next(t).parts == t.parts && PartsFit(Next(t))
    ensures Script(Next(t).pc, t.parts) == Script(t.pc, t.parts)
  {
    hide Preamble, Concat;
    PreambleFacts(t.parts);
  }

  lemma EmittingStep(t: Turn)
    requires Enabled(t, Advance) && PartsFit(t) && Emits(t.pc, t.parts).Some?
    ensures Next(t).events == t.events + [Emits(t.pc, t.parts).value] && PartsFit(Next(t))
    ensures OfGenerator(Emits(t.pc, t.parts).value)
    ensures Script(Next(t).pc, Next(t).parts) == Script(t.pc, t.parts) + [Emits(t.pc, t.parts).value]
  {
    hide Preamble, Concat, Deltas;
    PreambleFacts(t.parts);
    if t.pc.Delivering? { DeltasGrow(t.parts, t.pc.chunk); }
  }

  lemma AdvanceKeepsScript(t: Turn)
    requires Enabled(t, Advance) && PartsFit(t) && Generated(t.events) == Script(t.pc, t.parts)
    ensures Generated(Next(t).events) == Script(Next(t).pc, Next(t).parts) && PartsFit(Next(t))
  {
    hide Generated, Script, Next, Emits, PartsFit, Enabled;
    if Emits(t.pc, t.parts).None? {
      SilentStep(t);
    } else {
      EmittingStep(t);
      GeneratedGrows(t.events, Emits(t.pc, t.parts).value);
    }
  }

  /** What the model, the host, an interrupt or a close does to the script. */
  lemma OtherStep(t: Turn, l: Label)
    requires Enabled(t, l) && PartsFit(t) && !l.Advance?
    ensures Apply(t, l).parts == t.parts && PartsFit(Apply(t, l))
    ensures Script(Apply(t, l).pc, t.parts) == Script(t.pc, t.parts)
    ensures || Apply(t, l).events == t.events
            || exists e :: !OfGenerator(e) && Apply(t, l).events == t.events + [e]
  {
    hide Preamble, Concat, Next;
    PreambleFacts(t.parts);
  }

  lemma StepKeepsScript(t: Turn, l: Label)
    requires Enabled(t, l) && PartsFit(t) && Generated(t.events) == Script(t.pc, t.parts)
    ensures Generated(Apply(t, l).events) == Script(Apply(t, l).pc, Apply(t, l).parts) && PartsFit(Apply(t, l))
  {
    hide Generated, Script, Next, PartsFit, Enabled;
    if l.Advance? {
      AdvanceKeepsScript(t);
    } else {
      OtherStep(t, l);
      if Apply(t, l).events != t.events {
        var e :| !OfGenerator(e) && Apply(t, l).events == t.events + [e];
        GeneratedGrows(t.events, e);
        NothingAdded(t.events);
      }
    }
  }

  lemma NothingAdded(events: seq<Event>)
    ensures Generated(events) + [] == Generated(events)
  {
  }

  lemma TerminalStep(t: Turn)
    requires Enabled(t, Advance)
    ensures OwnTerminals(Next(t).pc)
            == OwnTerminals(t.pc)
               + if Emits(t.pc, t.parts).Some? && IsTerminal(Emits(t.pc, t.parts).value) then 1 else 0
  {
    hide Concat;
  }

  lemma AdvanceEmits(t: Turn)
    requires Enabled(t, Advance)
    ensures Emits(t.pc, t.parts).None? ==> Next(t).events == t.events
    ensures Emits(t.pc, t.parts).Some? ==> Next(t).events == t.events + [Emits(t.pc, t.parts).value]
  {
    hide Concat;
  }

  lemma StepKeepsTerminals(t: Turn, l: Label)
    requires Enabled(t, l) && Terminals(t.events) == OwnTerminals(t.pc) + CloseTerminals(t.closer)
    requires t.closed <==> !t.closer.NotCalled?
    ensures Terminals(Apply(t, l).events) == OwnTerminals(Apply(t, l).pc) + CloseTerminals(Apply(t, l).closer)
  {
    hide Terminals, Generated, Next, Emits;
    var t' := Apply(t, l);
    if l.Advance? {
      TerminalStep(t);
      AdvanceEmits(t);
      AdvanceLeavesTheClose(t);
    }
    if |t'.events| > |t.events| {
      GeneratedGrows(t.events, t'.events[|t.events|]);
    } else {
      assert t'.events == t.events;
    }
  }

  // ------------------------------------------------------------ what is heard

  /** The event a step emits. */
  function EmitsAt(t: Turn, l: Label): Option<Event> {
    match l
    case Advance => Emits(t.pc, t.parts)
    case Interrupt =>
      Some(InterruptRequested(if t.closed then AlreadyClosed else if !t.active then NoActiveTurn else Accepted))
    case CloseStep => if t.closer.StateSet? then Some(SessionClosed) else None
    case _ => None
  }

  /** Nothing else changes what was emitted, heard or ended. */
  lemma StepEmits(t: Turn, l: Label)
    requires Enabled(t, l)
    ensures var e := EmitsAt(t, l);
            var t' := if e.Some? then Emit(t, e.value) else t;
            && Apply(t, l).events == t'.events && Apply(t, l).heard == t'.heard
            && Apply(t, l).endedUnder == t'.endedUnder
  {
    hide Concat;
    if l.Advance? { AdvanceEmitsOnly(t); }
  }

  lemma AdvanceEmitsOnly(t: Turn)
    requires Enabled(t, Advance)
    ensures var e := Emits(t.pc, t.parts);
            var t' := if e.Some? then Emit(t, e.value) else t;
            && Next(t).events == t'.events && Next(t).heard == t'.heard
            && Next(t).endedUnder == t'.endedUnder && Next(t).closer == t.closer
  {
    hide Concat;
  }

  /** Everything emitted is heard until the close clears the callbacks, nothing after. */
  ghost predicate HeardInv(t: Turn) {
    && (t.endedUnder.Some? <==> OwnTerminals(t.pc) == 1)
    && (t.endedUnder == Some(Finished) ==> t.closer.Finished?)
    && (t.closer.Finished? ==> t.heard <= t.events) && (!t.closer.Finished? ==> t.heard == t.events)
    && Terminals(t.heard) == HeardEnds(t) + CloseTerminals(t.closer)
  }

  lemma OwnTerminalsStep(t: Turn, l: Label)
    requires Enabled(t, l)
    ensures OwnTerminals(Apply(t, l).pc)
            == OwnTerminals(t.pc)
               + if l.Advance? && EmitsAt(t, l).Some? && IsTurnEnd(EmitsAt(t, l).value) then 1 else 0
    ensures OwnTerminals(t.pc) <= 1 && OwnTerminals(Apply(t, l).pc) <= 1
  {
    hide Concat;
    if l.Advance? { TerminalStep(t); }
  }

  lemma CloserSteps(t: Turn, l: Label)
    requires Enabled(t, l) && (t.closed <==> !t.closer.NotCalled?)
    ensures l.CloseStep? ==> (t.closer.StateSet? <==> Apply(t, l).closer.Emitted?)
    ensures l.CloseStep? ==> !t.closer.Finished? && (t.closer.Emitted? <==> Apply(t, l).closer.Finished?)
    ensures l.CloseSection? ==> CloseTerminals(Apply(t, l).closer) == CloseTerminals(t.closer)
    ensures l.CloseSection? ==> (Apply(t, l).closer.Finished? <==> t.closer.Finished?)
    ensures !l.CloseStep? && !l.CloseSection? ==> Apply(t, l).closer == t.closer
  {
    hide Concat, Next;
    if l.Advance? { AdvanceLeavesTheClose(t); }
  }

  lemma StepKeepsHeard(t: Turn, l: Label)
    requires HeardInv(t) && Enabled(t, l) && (t.closed <==> !t.closer.NotCalled?)
    ensures HeardInv(Apply(t, l))
  {
    hide Terminals, OwnTerminals, Enabled, Apply, Emits;
    StepEmits(t, l);
    OwnTerminalsStep(t, l);
    CloserSteps(t, l);
    if EmitsAt(t, l).Some? {
      GeneratedGrows(t.heard, EmitsAt(t, l).value);
      EmitterOf(t, l);
    }
  }

  lemma EmitterOf(t: Turn, l: Label)
    requires EmitsAt(t, l).Some?
    ensures IsTurnEnd(EmitsAt(t, l).value) ==> l.Advance?
    ensures EmitsAt(t, l).value.SessionClosed? <==> l.CloseStep?
    ensures l.CloseStep? ==> t.closer.StateSet?
  {
  }

  /** The session state that goes with a position of the generator, on an open session. */
  function StateAt(p: Pc): SessionState {
    match p
    case Interrupting => SessionState.Interrupted
    case FailingTurn => ErrorState
    case Leaving(exit) => WhileLeaving(exit)
    case Left(exit) => WhileLeaving(exit)
    case _ => if BeforeTheTurn(p) || p.Done? then IdleState else Responding
  }

  function WhileLeaving(exit: Exit): SessionState {
    if exit.ByInterrupt? then SessionState.Interrupted else if exit.ByFailure? then ErrorState else Responding
  }

  predicate BeforeTheTurn(p: Pc) { p.NotStarted? || p.Begun? || p.HasContext? || p.NeverRan? }

  /** While open the session state is exactly the position's: idle before and after. */
  ghost predicate StateInv(t: Turn) {
    !t.closed ==> t.state == StateAt(t.pc)
  }

  lemma StepKeepsState(t: Turn, l: Label)
    requires StateInv(t) && Enabled(t, l) && (!t.closed ==> t.closer.NotCalled? && !t.pc.NeverRan?)
    ensures StateInv(Apply(t, l))
  {
    hide Next, Emit;
    EmitKeepsTheState(t);
    if l.Advance? { if !t.closed { StateAdvance(t); } else { AdvanceLeavesTheClose(t); } }
  }

  lemma EmitKeepsTheState(t: Turn)
    ensures forall e :: Emit(t, e).state == t.state && Emit(t, e).pc == t.pc && Emit(t, e).closed == t.closed
  {
  }

  lemma StateAdvance(t: Turn)
    requires t.state == StateAt(t.pc) && Enabled(t, Advance) && !t.closed
    ensures Next(t).state == StateAt(Next(t).pc)
  {
    hide Concat, Emit;
    EmitKeepsTheState(t);
    if Over(t.pc) { StateOnTheWayOut(t); } else { hide WhileLeaving; LeavesInState(); }
  }

  lemma StateOnTheWayOut(t: Turn)
    requires t.state == StateAt(t.pc) && Over(t.pc) && Enabled(t, Advance) && !t.closed
    ensures Next(t).state == StateAt(Next(t).pc)
  {
    hide Concat, Emit;
  }

  lemma LeavesInState()
    ensures WhileLeaving(ByInterrupt) == SessionState.Interrupted && WhileLeaving(ByFailure) == ErrorState
    ensures WhileLeaving(ByCompletion) == Responding
  {
  }

  // -------------------------------------------------------------------- runs

  ghost function Run(labels: seq<Label>): Turn
    decreases |labels|
  {
    if labels == [] then INITIAL_TURN
    else
      var t, l := Run(labels[..|labels| - 1]), labels[|labels| - 1];
      if Enabled(t, l) then Apply(t, l) else t
  }

  ghost predicate Legal(labels: seq<Label>)
    decreases |labels|
  {
    labels == []
    || (Legal(labels[..|labels| - 1]) && Enabled(Run(labels[..|labels| - 1]), labels[|labels| - 1]))
  }

  /** In every run the generator's own events are exactly those its position and the text it
      has delivered call for: two openings, deltas numbered 0, 1, 2, ..., then the joined
      text and TURN_COMPLETED, or TURN_INTERRUPTED, or TURN_FAILED, or nothing. */
  lemma {:induction false} RunFollowsTheScript(labels: seq<Label>)
    requires Legal(labels)
    ensures Inv(Run(labels)) && StateInv(Run(labels)) && HeardInv(Run(labels))
    ensures Generated(Run(labels).events) == Script(Run(labels).pc, Run(labels).parts)
    decreases |labels|
  {
    hide Apply, Enabled, CloseInv, PartsFit, Generated, Script, StateInv, HeardInv, Terminals,
      OwnTerminals, CloseTerminals;
    if labels == [] {
      InitialHolds();
    } else {
      var t, l := Run(labels[..|labels| - 1]), labels[|labels| - 1];
      RunFollowsTheScript(labels[..|labels| - 1]);
      CloseInvFacts(t);
      StepKeepsCloseInv(t, l);
      StepKeepsScript(t, l);
      StepKeepsTerminals(t, l);
      StepKeepsState(t, l);
      StepKeepsHeard(t, l);
    }
  }

  lemma InitialHolds()
    ensures Inv(INITIAL_TURN) && StateInv(INITIAL_TURN) && HeardInv(INITIAL_TURN)
  {
  }

  lemma CloseInvFacts(t: Turn)
    requires CloseInv(t)
    ensures t.closed <==> !t.closer.NotCalled?
    ensures !t.closed ==> !t.pc.NeverRan?
  {
  }

  lemma {:induction false} DeltasAt(parts: seq<string>, i: nat)
    requires i < |parts|
    ensures |Deltas(parts)| == |parts| && Deltas(parts)[i] == ResponseDelta(i, parts[i])
    decreases |parts|
  {
    var init := parts[..|parts| - 1];
    if i < |init| { DeltasAt(init, i); }
    else if |init| > 0 { DeltasAt(init, 0); }
  }

  /** Terminal events of a turn that was not abandoned, once it and any close are over, as
      a callback registered throughout receives them: one, but two if the close came between
      the generator's last closed check and the end of its context and the generator's own
      terminal event came before the callbacks were cleared, and none if the close came
      between the first check and the start of the context. */
  lemma TerminalsOfATurn(labels: seq<Label>)
    requires Legal(labels)
    requires Run(labels).pc.Done? && !Run(labels).pc.exit.ByAbandon?
    requires !Enabled(Run(labels), CloseStep)
    ensures var t := Run(labels);
            Terminals(t.heard) == if t.closedAt.None? then 1
                                  else if t.closedAt.value.Begun? then 0
                                  else if Window(t.closedAt.value) && t.endedUnder != Some(Finished) then 2
                                  else 1
    ensures !Run(labels).closed ==> Run(labels).state.IdleState?
  {
    hide Run, Legal, Generated, Script, Terminals, PartsFit;
    RunFollowsTheScript(labels);
  }

  /** The same for what is emitted, whether anybody hears it or not. */
  lemma TerminalsEmitted(labels: seq<Label>)
    requires Legal(labels)
    requires Run(labels).pc.Done? && !Run(labels).pc.exit.ByAbandon?
    requires !Enabled(Run(labels), CloseStep)
    ensures var t := Run(labels);
            Terminals(t.events) == if t.closedAt.None? then 1
                                   else if Window(t.closedAt.value) then 2
                                   else if t.closedAt.value.Begun? then 0
                                   else 1
  {
    hide Run, Legal, Generated, Script, Terminals, PartsFit, HeardInv;
    RunFollowsTheScript(labels);
  }

  // -------------------------------------------------------------- interrupts

  /** An accepted interrupt that the next interrupt check will see. */
  predicate Quiet(t: Turn) {
    t.interrupt && !(t.pc.NotStarted? || t.pc.Begun? || t.pc.HasContext? || t.pc.Delivering?)
  }

  lemma QuietStays(t: Turn, l: Label)
    requires Quiet(t) && Enabled(t, l)
    ensures Quiet(Apply(t, l)) && Apply(t, l).parts == t.parts
  {
    hide Concat;
  }

  /** No delta follows an accepted interrupt: nothing that is delivered in the rest of the run
      adds to what had been delivered when it was accepted at step `n`, except the one delta
      past its interrupt check, and except where the flag is reset after acceptance, before
      the turn has opened. */
  lemma {:induction false} NoDeltaAfterInterrupt(labels: seq<Label>, n: nat)
    requires Legal(labels) && n < |labels| && labels[n] == Interrupt
    requires !Run(labels[..n]).closed && Run(labels[..n]).active && !Run(labels[..n]).pc.HasContext?
    ensures var before, after := Run(labels[..n]), Run(labels);
            && (Quiet(after) || (before.pc.Delivering? && after.pc == before.pc))
            && (after.parts == before.parts
                || (before.pc.Delivering? && after.parts == before.parts + [before.pc.chunk]))
            && (after.pc.Delivering? ==> after.parts == before.parts)
            && after.interrupt
    decreases |labels|
  {
    hide Generated, Terminals, Script, CloseInv, PartsFit;
    var init := labels[..|labels| - 1];
    var t, l := Run(init), labels[|labels| - 1];
    if n == |labels| - 1 {
      RunFollowsTheScript(init);
      ActiveMeansTurn(t);
    } else {
      assert init[..n] == labels[..n];
      NoDeltaAfterInterrupt(init, n);
      if Quiet(t) { QuietStays(t, l); } else { DeliveringStep(t, l); }
    }
  }

  lemma ActiveMeansTurn(t: Turn)
    requires CloseInv(t) && t.active && !t.closed
    ensures HasTurn(t.pc)
  {
  }

  lemma DeliveringStep(t: Turn, l: Label)
    requires t.pc.Delivering? && t.interrupt && Enabled(t, l)
    ensures if l.Advance? then Quiet(Apply(t, l)) && Apply(t, l).parts == t.parts + [t.pc.chunk]
            else Apply(t, l).pc == t.pc && Apply(t, l).parts == t.parts && Apply(t, l).interrupt
  {
  }

  /** The two exceptions, for every state: at HasContext the next step forgets the flag, and
      at Delivering it adds the delta whatever the flag says. */
  lemma HasContextForgets(t: Turn)
    requires t.pc.HasContext?
    ensures Enabled(t, Advance) && !Next(t).interrupt
  {
  }

  lemma DeliveringDelivers(t: Turn)
    requires t.pc.Delivering?
    ensures Enabled(t, Advance) && Next(t).parts == t.parts + [t.pc.chunk] && Next(t).interrupt == t.interrupt
  {
  }

  /** On the way out by an interrupt, or out. */
  predicate GoesInterrupted(p: Pc) { p.Interrupting? || (Over(p) && p.exit.ByInterrupt?) }

  /** The generator makes its interrupt check at step `k`. */
  ghost predicate ChecksAt(labels: seq<Label>, k: nat) {
    k < |labels| && labels[k] == Advance && Run(labels[..k]).pc.NotClosed?
  }

  ghost predicate ChecksAfter(labels: seq<Label>, n: nat) {
    exists k :: n < k < |labels| && ChecksAt(labels, k)
  }

  /** The flag is noted, past the point where it is reset. */
  predicate FlagStands(t: Turn) {
    t.interrupt && !(t.pc.NotStarted? || t.pc.Begun? || t.pc.HasContext?)
  }

  /** A noted interrupt takes effect at an interrupt check and nowhere else. */
  lemma NotedAdvance(t: Turn)
    requires FlagStands(t) && Enabled(t, Advance)
    ensures FlagStands(Next(t))
    ensures GoesInterrupted(Next(t).pc) <==> GoesInterrupted(t.pc) || t.pc.NotClosed?
  {
    hide Concat, Emit;
    EmitLeavesTheFlag(t);
  }

  lemma EmitLeavesTheFlag(t: Turn)
    ensures forall e :: Emit(t, e).interrupt == t.interrupt
  {
  }

  lemma NotedInterruptStep(t: Turn, l: Label)
    requires FlagStands(t) && Enabled(t, l)
    ensures FlagStands(Apply(t, l))
    ensures GoesInterrupted(Apply(t, l).pc) <==> GoesInterrupted(t.pc) || (l == Advance && t.pc.NotClosed?)
  {
    hide Next;
    if l.Advance? { NotedAdvance(t); }
  }

  lemma ChecksGrow(labels: seq<Label>, n: nat)
    requires n < |labels| - 1
    ensures var last := |labels| - 1;
            ChecksAfter(labels, n) <==> ChecksAfter(labels[..last], n) || ChecksAt(labels, last)
  {
    var last := |labels| - 1;
    forall k | 0 <= k < last ensures ChecksAt(labels, k) <==> ChecksAt(labels[..last], k) {
      assert labels[..last][..k] == labels[..k];
    }
  }

  /** When an accepted interrupt ends the turn, in every run: accepted at step `n`, once the
      flag has been reset, it sends the generator out as interrupted if and only if that was
      already so, or the generator makes an interrupt check after `n`. */
  lemma {:induction false} InterruptTakesEffectIff(labels: seq<Label>, n: nat)
    requires Legal(labels) && n < |labels| && labels[n] == Interrupt
    requires !Run(labels[..n]).closed && Run(labels[..n]).active && !Run(labels[..n]).pc.HasContext?
    ensures GoesInterrupted(Run(labels).pc)
            <==> GoesInterrupted(Run(labels[..n]).pc) || ChecksAfter(labels, n)
    ensures FlagStands(Run(labels))
    decreases |labels|
  {
    hide Generated, Terminals, Script, CloseInv, PartsFit, HeardInv, ChecksAfter, ChecksAt;
    var init := labels[..|labels| - 1];
    var t, l := Run(init), labels[|labels| - 1];
    if n == |labels| - 1 {
      RunFollowsTheScript(init);
      ActiveMeansTurn(t);
      NoCheckYet(labels, n);
    } else {
      assert init[..n] == labels[..n];
      InterruptTakesEffectIff(init, n);
      NotedInterruptStep(t, l);
      ChecksGrow(labels, n);
      LastCheck(labels);
    }
  }

  lemma NoCheckYet(labels: seq<Label>, n: nat)
    requires n == |labels| - 1
    ensures !ChecksAfter(labels, n)
  {
  }

  lemma LastCheck(labels: seq<Label>)
    requires labels != []
    ensures var last := |labels| - 1;
            ChecksAt(labels, last) <==> labels[last] == Advance && Run(labels[..last]).pc.NotClosed?
  {
  }

  /** Nobody closes, throws or abandons. */
  predicate Undisturbed(labels: seq<Label>) {
    forall k :: 0 <= k < |labels| ==>
      labels[k] != CloseSection && labels[k] != ModelRaises && labels[k] != HostThrows && labels[k] != HostAbandons
  }

  predicate Smooth(t: Turn) {
    && !t.closed && !t.pc.Raised? && !t.pc.FailingTurn? && !t.pc.NeverRan?
    && (Over(t.pc) ==> t.pc.exit.ByCompletion? || t.pc.exit.ByInterrupt?)
  }

  lemma SmoothStep(t: Turn, l: Label)
    requires Smooth(t) && Enabled(t, l)
    requires l != CloseSection && l != ModelRaises && l != HostThrows && l != HostAbandons
    ensures Smooth(Apply(t, l))
  {
    hide Concat;
  }

  lemma {:induction false} UndisturbedIsSmooth(labels: seq<Label>)
    requires Legal(labels) && Undisturbed(labels)
    ensures Smooth(Run(labels))
    decreases |labels|
  {
    hide Apply, Enabled, Smooth;
    if labels == [] {
      SmoothStart();
    } else {
      UndisturbedIsSmooth(labels[..|labels| - 1]);
      SmoothStep(Run(labels[..|labels| - 1]), labels[|labels| - 1]);
    }
  }

  lemma SmoothStart()
    ensures Smooth(INITIAL_TURN)
  {
  }

  /** So a turn that nobody disturbs otherwise ends as interrupted or as completed, and which
      it is depends only on whether an interrupt check comes after the acceptance: an
      interrupt accepted after the last one still ends in TURN_COMPLETED. */
  lemma InterruptOrCompletion(labels: seq<Label>, n: nat)
    requires Legal(labels) && n < |labels| && labels[n] == Interrupt && Undisturbed(labels)
    requires Run(labels[..n]).active && !Run(labels[..n]).pc.HasContext?
    requires Run(labels).pc.Done?
    ensures Run(labels).pc.exit
            == if GoesInterrupted(Run(labels[..n]).pc) || ChecksAfter(labels, n) then ByInterrupt else ByCompletion
  {
    hide Run, Legal, ChecksAfter;
    UndisturbedIsSmooth(labels);
    PrefixIsSmooth(labels, n);
    InterruptTakesEffectIff(labels, n);
  }

  lemma {:induction false} PrefixIsSmooth(labels: seq<Label>, n: nat)
    requires Legal(labels) && Undisturbed(labels) && n <= |labels|
    ensures Smooth(Run(labels[..n]))
    decreases |labels|
  {
    hide Smooth;
    if n == |labels| {
      assert labels[..n] == labels;
      UndisturbedIsSmooth(labels);
    } else {
      assert labels[..|labels| - 1][..n] == labels[..n];
      PrefixIsSmooth(labels[..|labels| - 1], n);
    }
  }

  // ---------------------------------------------------------- the text of a turn

  lemma {:induction false} ConcatSplits(a: seq<string>, b: seq<string>)
    ensures Concat(a + b) == Concat(a) + Concat(b)
    decreases |b|
  {
    if b == [] {
      assert a + b == a && Concat(a) + "" == Concat(a);
    } else {
      var init, last := b[..|b| - 1], b[|b| - 1];
      assert (a + b)[..|a + b| - 1] == a + init;
      ConcatSplits(a, init);
      ConcatAssoc(Concat(a), Concat(init), last);
    }
  }

  /** The texts of the deltas among `events`, one after the other. */
  function DeltaText(events: seq<Event>): string {
    if events == [] then ""
    else (if events[0].ResponseDelta? then events[0].text else "") + DeltaText(events[1..])
  }

  lemma {:induction false} DeltaTextSplits(a: seq<Event>, b: seq<Event>)
    ensures DeltaText(a + b) == DeltaText(a) + DeltaText(b)
  {
    if a == [] {
      assert a + b == b && "" + DeltaText(b) == DeltaText(b);
    } else {
      assert (a + b)[1..] == a[1..] + b && (a + b)[0] == a[0];
      DeltaTextSplits(a[1..], b);
      ConcatAssoc(if a[0].ResponseDelta? then a[0].text else "", DeltaText(a[1..]), DeltaText(b));
    }
  }

  lemma DeltaTextOne(e: Event)
    ensures DeltaText([e]) == if e.ResponseDelta? then e.text else ""
  {
    assert [e][1..] == [];
    assert e.ResponseDelta? ==> e.text + "" == e.text;
  }

  lemma {:induction false} GeneratedText(events: seq<Event>)
    ensures DeltaText(Generated(events)) == DeltaText(events)
    decreases |events|
  {
    if events != [] {
      var init, e := events[..|events| - 1], events[|events| - 1];
      assert events == init + [e];
      GeneratedText(init);
      DeltaTextSplits(init, [e]);
      DeltaTextSplits(Generated(init), if OfGenerator(e) then [e] else []);
      DeltaTextOne(e);
      assert DeltaText(init) + "" == DeltaText(init);
    }
  }

  lemma {:induction false} TextOfDeltas(parts: seq<string>)
    ensures DeltaText(Deltas(parts)) == Concat(parts)
    decreases |parts|
  {
    if parts != [] {
      var init, e := parts[..|parts| - 1], ResponseDelta(|parts| - 1, parts[|parts| - 1]);
      TextOfDeltas(init);
      DeltaTextSplits(Deltas(init), [e]);
      DeltaTextOne(e);
    }
  }

  /** What the script emits after the deltas. */
  function TailAt(p: Pc, parts: seq<string>): seq<Event> {
    match p
    case Completed => [ResponseCompleted(Concat(parts))]
    case Leaving(exit) => Ending(exit, parts)
    case Left(exit) => Ending(exit, parts)
    case Done(exit) => Ending(exit, parts)
    case _ => []
  }

  lemma ScriptText(p: Pc, parts: seq<string>)
    requires BeforeLoop(p) ==> parts == []
    ensures DeltaText(Script(p, parts)) == Concat(parts)
  {
    hide Concat, Deltas;
    if BeforeLoop(p) {
      EarlyText(p, parts);
    } else {
      PreambleFacts(parts);
      assert Script(p, parts) == Preamble(parts) + TailAt(p, parts);
      hide Script;
      PreambleText(parts);
      DeltaTextSplits(Preamble(parts), TailAt(p, parts));
      TailText(p, parts);
      assert Concat(parts) + "" == Concat(parts);
    }
  }

  lemma PreambleText(parts: seq<string>)
    ensures DeltaText(Preamble(parts)) == Concat(parts)
  {
    hide Concat, Deltas;
    DeltaTextSplits([TurnStarted, ResponseStarted], Deltas(parts));
    DeltaTextSplits([TurnStarted], [ResponseStarted]);
    assert [TurnStarted] + [ResponseStarted] == [TurnStarted, ResponseStarted];
    TextOfDeltas(parts);
    assert "" + Concat(parts) == Concat(parts);
  }

  lemma TailText(p: Pc, parts: seq<string>)
    ensures DeltaText(TailAt(p, parts)) == ""
  {
    hide Concat;
    var text := ResponseCompleted(Concat(parts));
    DeltaTextSplits([text], [TurnCompleted]);
    assert [text] + [TurnCompleted] == [text, TurnCompleted];
    DeltaTextOne(text);
    DeltaTextOne(TurnCompleted);
    DeltaTextOne(TurnInterrupted);
    DeltaTextOne(TurnFailed);
  }

  lemma EarlyText(p: Pc, parts: seq<string>)
    requires BeforeLoop(p) && parts == []
    ensures DeltaText(Script(p, parts)) == Concat(parts)
  {
    DeltaTextOne(TurnStarted);
  }

  lemma {:induction false} GeneratedHas(events: seq<Event>, k: nat)
    requires k < |events| && OfGenerator(events[k])
    ensures events[k] in Generated(events)
    decreases |events|
  {
    if k < |events| - 1 { GeneratedHas(events[..|events| - 1], k); }
  }

  lemma ScriptCompletes(p: Pc, parts: seq<string>, text: string)
    requires ResponseCompleted(text) in Script(p, parts)
    ensures text == Concat(parts) && (p.Completed? || (Over(p) && p.exit.ByCompletion?))
  {
    hide Concat, Deltas;
    NoTextInDeltas(parts, text);
  }

  lemma {:induction false} NoTextInDeltas(parts: seq<string>, text: string)
    ensures ResponseCompleted(text) !in Deltas(parts)
    decreases |parts|
  {
    if parts != [] { NoTextInDeltas(parts[..|parts| - 1], text); }
  }

  /** The visible chunks the model has sent. */
  ghost function Sent(labels: seq<Label>): seq<string>
    decreases |labels|
  {
    if labels == [] then []
    else
      var l := labels[|labels| - 1];
      Sent(labels[..|labels| - 1]) + if l.ModelSends? && l.chunk != "" then [l.chunk] else []
  }

  /** The chunk the generator holds, on its way to a delta. */
  function InHand(p: Pc): seq<string> {
    match p
    case Got(chunk) => if chunk == "" then [] else [chunk]
    case NotClosed(chunk) => if chunk == "" then [] else [chunk]
    case Delivering(chunk) => [chunk]
    case _ => []
  }

  /** A generator on this way may have dropped the last chunk. */
  predicate MayDrop(p: Pc) {
    p.Interrupting? || (Over(p) && (p.exit.ByInterrupt? || p.exit.ByClose?))
  }

  ghost predicate Delivery(t: Turn, sent: seq<string>) {
    && (!MayDrop(t.pc) ==> sent == t.parts + InHand(t.pc))
    && t.parts <= sent && |sent| <= |t.parts| + 1
    && (BeforeLoop(t.pc) ==> sent == [])
    && (t.pc.Delivering? ==> t.pc.chunk != "")
  }

  lemma DeliveryStep(t: Turn, l: Label, sent: seq<string>)
    requires Delivery(t, sent) && Enabled(t, l)
    ensures Delivery(Apply(t, l), sent + if l.ModelSends? && l.chunk != "" then [l.chunk] else [])
  {
    hide Concat, Emit, Next, Delivery;
    assert sent + [] == sent;
    EmitKeepsTheParts(t);
    if l.Advance? {
      DeliveryAdvance(t, sent);
    } else if t.pc == Apply(t, l).pc {
      SamePlace(t, Apply(t, l), sent);
    } else {
      PulledOrResumed(t, l, sent);
    }
  }

  lemma EmitKeepsTheParts(t: Turn)
    ensures forall e :: Emit(t, e).parts == t.parts && Emit(t, e).pc == t.pc
  {
  }

  lemma SamePlace(t: Turn, t': Turn, sent: seq<string>)
    requires Delivery(t, sent) && t'.pc == t.pc && t'.parts == t.parts
    ensures Delivery(t', sent)
  {
  }

  lemma PulledOrResumed(t: Turn, l: Label, sent: seq<string>)
    requires Delivery(t, sent) && Enabled(t, l) && (t.pc.Pulling? || t.pc.Yielded?) && Apply(t, l).pc != t.pc
    requires !l.Advance?
    ensures Delivery(Apply(t, l), sent + if l.ModelSends? && l.chunk != "" then [l.chunk] else [])
  {
    hide Apply, BeforeLoop;
    WhereTo(t, l);
    var t' := Apply(t, l);
    assert t.parts + [] == t.parts && sent + [] == sent;
    assert t'.parts + InHand(t'.pc) == sent + if l.ModelSends? && l.chunk != "" then [l.chunk] else [];
  }

  lemma WhereTo(t: Turn, l: Label)
    requires Enabled(t, l) && (t.pc.Pulling? || t.pc.Yielded?) && Apply(t, l).pc != t.pc && !l.Advance?
    ensures var t' := Apply(t, l);
            && t'.parts == t.parts && !MayDrop(t'.pc) && !t'.pc.Delivering? && !BeforeLoop(t'.pc) && !MayDrop(t.pc)
            && InHand(t.pc) == []
            && InHand(t'.pc) == if l.ModelSends? && l.chunk != "" then [l.chunk] else []
  {
    hide Concat, Emit, Next;
    EmitKeepsTheParts(t);
  }

  lemma DeliveryAdvance(t: Turn, sent: seq<string>)
    requires Delivery(t, sent) && Enabled(t, Advance)
    ensures Delivery(Next(t), sent)
  {
    hide Concat, Emit;
    EmitKeepsTheParts(t);
    if t.pc.Delivering? {
      assert Next(t).parts + [] == Next(t).parts;
    } else {
      KeepsParts(t);
      assert t.parts + [] == t.parts;
      hide Next;
      PlaceAfter(t);
      NextPlace(t, Next(t), sent);
    }
  }

  lemma KeepsParts(t: Turn)
    requires Enabled(t, Advance) && !t.pc.Delivering?
    ensures Next(t).parts == t.parts
  {
    hide Concat, Emit;
    EmitKeepsTheParts(t);
  }

  /** Where a step that delivers nothing leads, as far as the chunk in hand goes. */
  lemma PlaceAfter(t: Turn)
    requires Enabled(t, Advance) && !t.pc.Delivering?
    ensures var p := Next(t).pc;
            && (BeforeLoop(p) || p.Pulling? || InHand(p) == InHand(t.pc) || MayDrop(p))
            && (BeforeLoop(p) ==> BeforeLoop(t.pc))
            && (!MayDrop(p) ==> !MayDrop(t.pc) && InHand(p) == InHand(t.pc))
            && (p.Delivering? ==> p.chunk != "")
  {
    hide Concat, Emit;
    EmitKeepsTheParts(t);
  }

  lemma NextPlace(t: Turn, t': Turn, sent: seq<string>)
    requires Delivery(t, sent) && t'.parts == t.parts
    requires (BeforeLoop(t'.pc) ==> BeforeLoop(t.pc)) && (t'.pc.Delivering? ==> t'.pc.chunk != "")
    requires !MayDrop(t'.pc) ==> !MayDrop(t.pc) && InHand(t'.pc) == InHand(t.pc)
    ensures Delivery(t', sent)
  {
  }

  /** Of what the model has sent, the deltas carry everything, in order, but at most the last
      visible chunk; and everything, unless that chunk is still in hand or the turn goes out
      by an interrupt or a close. */
  lemma {:induction false} DeltasCarryWhatWasSent(labels: seq<Label>)
    requires Legal(labels)
    ensures Delivery(Run(labels), Sent(labels))
    decreases |labels|
  {
    hide Delivery, Apply, Enabled;
    if labels == [] {
      NothingSent();
    } else {
      DeltasCarryWhatWasSent(labels[..|labels| - 1]);
      DeliveryStep(Run(labels[..|labels| - 1]), labels[|labels| - 1], Sent(labels[..|labels| - 1]));
    }
  }

  lemma NothingSent()
    ensures Delivery(INITIAL_TURN, [])
  {
  }

  /** In every run the text of the emitted deltas, in the order of their emission, is the
      delivered parts joined; and RESPONSE_COMPLETED carries exactly that text, which is all
      the model has sent. */
  lemma CompletedText(labels: seq<Label>, k: nat)
    requires Legal(labels)
    ensures DeltaText(Run(labels).events) == Concat(Run(labels).parts)
    ensures k < |Run(labels).events| && Run(labels).events[k].ResponseCompleted? ==>
              && Run(labels).events[k].text == DeltaText(Run(labels).events) == Concat(Sent(labels))
              && Run(labels).parts == Sent(labels)
  {
    hide Run, Legal, Concat, Script, Generated, Terminals, CloseInv, StateInv, HeardInv, DeltaText;
    var t := Run(labels);
    RunFollowsTheScript(labels);
    GeneratedText(t.events);
    ScriptText(t.pc, t.parts);
    if k < |t.events| && t.events[k].ResponseCompleted? {
      GeneratedHas(t.events, k);
      ScriptCompletes(t.pc, t.parts, t.events[k].text);
      DeltasCarryWhatWasSent(labels);
      assert t.parts + [] == t.parts;
    }
  }

  lemma {:induction false} ClosedIff(labels: seq<Label>)
    requires Legal(labels)
    ensures Run(labels).closed <==> CloseSection in labels
    decreases |labels|
  {
    hide Enabled, Apply;
    if labels != [] {
      var init, l := labels[..|labels| - 1], labels[|labels| - 1];
      ClosedIff(init);
      assert labels == init + [l];
      StepCloses(Run(init), l);
    }
  }

  lemma StepCloses(t: Turn, l: Label)
    requires Enabled(t, l)
    ensures Apply(t, l).closed <==> t.closed || l.CloseSection?
  {
    hide Next;
    if l.Advance? { AdvanceLeavesTheClose(t); }
  }

  /** How an interrupt is answered, exactly, in every run: ALREADY_CLOSED iff a close was ever
      called; otherwise ACCEPTED iff the generator has set its context and not yet cleared
      it, and NO_ACTIVE_TURN iff not. Only an accepted one raises the flag. */
  lemma InterruptAnswerIff(labels: seq<Label>)
    requires Legal(labels)
    ensures var t, t' := Run(labels), Apply(Run(labels), Interrupt);
            var closed := CloseSection in labels;
            && |t'.events| == |t.events| + 1
            && (closed <==> t'.events[|t.events|] == InterruptRequested(AlreadyClosed))
            && (!closed && HasTurn(t.pc) <==> t'.events[|t.events|] == InterruptRequested(Accepted))
            && (!closed && !HasTurn(t.pc) <==> t'.events[|t.events|] == InterruptRequested(NoActiveTurn))
            && (t'.interrupt <==> t.interrupt || t'.events[|t.events|] == InterruptRequested(Accepted))
            && t'.pc == t.pc && t'.parts == t.parts && t'.state == t.state
  {
    hide Run, Legal, Script, Generated, Terminals, StateInv, HeardInv, HasTurn, Tracks;
    RunFollowsTheScript(labels);
    ClosedIff(labels);
  }

  // --------------------------------------------------------------- witnesses

  lemma Extend(labels: seq<Label>, l: Label, t: Turn) returns (more: seq<Label>)
    requires Legal(labels) && Enabled(Run(labels), l) && t == Apply(Run(labels), l)
    ensures more == labels + [l] && Legal(more) && Run(more) == t
  {
    hide Enabled, Apply;
    more := labels + [l];
    assert more[..|more| - 1] == labels;
  }

  /** The turn once it waits for the model. */
  const OPENED_TURN :=
    Turn(Pulling, [], false, false, true, Responding, NotCalled, None, None,
         [TurnStarted, ResponseStarted], [TurnStarted, ResponseStarted])

  lemma ContextSet() returns (labels: seq<Label>)
    ensures Legal(labels) && Run(labels) == INITIAL_TURN.(pc := HasContext, active := true)
  {
    var none: seq<Label> := [];
    var l1 := Extend(none, Advance, INITIAL_TURN.(pc := Begun));
    labels := Extend(l1, Advance, INITIAL_TURN.(pc := HasContext, active := true));
  }

  /** From the active context to waiting for the model. */
  lemma OpensFrom(before: seq<Label>, t: Turn) returns (labels: seq<Label>)
    requires Legal(before) && Run(before) == t && t.pc.HasContext?
    ensures Legal(labels)
    ensures Run(labels) == Emit(Emit(t.(interrupt := false, state := Responding), TurnStarted), ResponseStarted)
                           .(pc := Pulling)
  {
    hide Run, Legal;
    var t1 := t.(interrupt := false, state := Responding);
    var l1 := Extend(before, Advance, t1.(pc := Opening));
    var l2 := Extend(l1, Advance, Emit(t1, TurnStarted).(pc := Opened));
    labels := Extend(l2, Advance, Emit(Emit(t1, TurnStarted), ResponseStarted).(pc := Pulling));
  }

  lemma Forgotten() returns (labels: seq<Label>)
    ensures Legal(labels)
    ensures Run(labels) == OPENED_TURN.(events := [InterruptRequested(Accepted), TurnStarted, ResponseStarted],
                                        heard := [InterruptRequested(Accepted), TurnStarted, ResponseStarted])
  {
    hide Run, Legal;
    var l0 := ContextSet();
    var t := Emit(Run(l0), InterruptRequested(Accepted)).(interrupt := true);
    var l1 := Extend(l0, Interrupt, t);
    labels := OpensFrom(l1, t);
  }

  /** The exception in NoDeltaAfterInterrupt: an interrupt accepted as soon as the context is
      set is forgotten, and a delta follows. */
  lemma InterruptForgotten(chunk: string) returns (labels: seq<Label>)
    requires chunk != ""
    ensures Legal(labels)
    ensures Run(labels).heard
            == [InterruptRequested(Accepted), TurnStarted, ResponseStarted, ResponseDelta(0, chunk)]
  {
    hide Run, Legal;
    var l4 := Forgotten();
    var t4 := Run(l4);
    var l5 := Extend(l4, ModelSends(chunk), t4.(pc := Got(chunk)));
    var l6 := Extend(l5, Advance, t4.(pc := NotClosed(chunk)));
    var l7 := Extend(l6, Advance, t4.(pc := Delivering(chunk)));
    labels := Extend(l7, Advance, Emit(t4, ResponseDelta(0, chunk)).(pc := Yielded, parts := t4.parts + [chunk]));
  }

  lemma Opens() returns (labels: seq<Label>)
    ensures Legal(labels) && Run(labels) == OPENED_TURN
  {
    hide Run, Legal;
    var l0 := ContextSet();
    labels := OpensFrom(l0, Run(l0));
  }

  /** One chunk is delivered and the generator is suspended at its yield. */
  function AfterOne(chunk: string): Turn {
    OPENED_TURN.(pc := Yielded, parts := [chunk],
                 events := [TurnStarted, ResponseStarted, ResponseDelta(0, chunk)],
                 heard := [TurnStarted, ResponseStarted, ResponseDelta(0, chunk)])
  }

  lemma ComesToDeliver(chunk: string) returns (labels: seq<Label>)
    requires chunk != ""
    ensures Legal(labels) && Run(labels) == OPENED_TURN.(pc := Delivering(chunk))
  {
    hide Run, Legal;
    var t := OPENED_TURN;
    var l0 := Opens();
    var l1 := Extend(l0, ModelSends(chunk), t.(pc := Got(chunk)));
    var l2 := Extend(l1, Advance, t.(pc := NotClosed(chunk)));
    labels := Extend(l2, Advance, t.(pc := Delivering(chunk)));
  }

  lemma Delivers(chunk: string) returns (labels: seq<Label>)
    requires chunk != ""
    ensures Legal(labels) && Run(labels) == AfterOne(chunk)
  {
    hide Run, Legal;
    var l3 := ComesToDeliver(chunk);
    assert [] + [chunk] == [chunk];
    labels := Extend(l3, Advance, AfterOne(chunk));
  }

  /** The other exception in NoDeltaAfterInterrupt: a delta past its interrupt check follows
      an interrupt accepted meanwhile. */
  lemma DeltaInFlight(chunk: string) returns (labels: seq<Label>)
    requires chunk != ""
    ensures Legal(labels)
    ensures Run(labels).heard
            == [TurnStarted, ResponseStarted, InterruptRequested(Accepted), ResponseDelta(0, chunk)]
  {
    hide Run, Legal;
    var l0 := ComesToDeliver(chunk);
    var t := Emit(Run(l0), InterruptRequested(Accepted)).(interrupt := true);
    var l1 := Extend(l0, Interrupt, t);
    labels := Extend(l1, Advance, Emit(t, ResponseDelta(0, chunk)).(pc := Yielded, parts := t.parts + [chunk]));
  }

  lemma ConcatOne(chunk: string)
    ensures Concat([chunk]) == chunk
  {
    assert [chunk][..0] == [] && "" + chunk == chunk;
  }

  /** From the last yield of a one-chunk turn up to RESPONSE_COMPLETED. */
  lemma Completes(before: seq<Label>, t: Turn, chunk: string) returns (labels: seq<Label>)
    requires Legal(before) && Run(before) == t && t.pc.Yielded? && !t.closed && t.parts == [chunk]
    ensures Legal(labels) && Run(labels) == Emit(t, ResponseCompleted(chunk)).(pc := Completed)
  {
    hide Run, Legal;
    var l1 := Extend(before, HostResumes, t.(pc := Pulling));
    var l2 := Extend(l1, ModelEnds, t.(pc := Exhausted));
    var l3 := Extend(l2, Advance, t.(pc := Completing));
    ConcatOne(chunk);
    labels := Extend(l3, Advance, Emit(t, ResponseCompleted(chunk)).(pc := Completed));
  }

  /** An interrupt accepted after the last chunk does not interrupt: the turn completes. */
  lemma InterruptAfterTheLastChunk(chunk: string) returns (labels: seq<Label>)
    requires chunk != ""
    ensures Legal(labels) && Run(labels).pc == Leaving(ByCompletion)
    ensures Run(labels).heard
            == [TurnStarted, ResponseStarted, ResponseDelta(0, chunk), InterruptRequested(Accepted),
                ResponseCompleted(chunk), TurnCompleted]
  {
    hide Run, Legal;
    var l0 := Delivers(chunk);
    var t1 := Emit(AfterOne(chunk), InterruptRequested(Accepted)).(interrupt := true);
    var l1 := Extend(l0, Interrupt, t1);
    var l2 := Completes(l1, t1, chunk);
    labels := Extend(l2, Advance, Emit(Run(l2), TurnCompleted).(pc := Leaving(ByCompletion)));
  }

  /** A host that closes from its TURN_COMPLETED callback hears two terminal events: the
      context is still active, and the callbacks are still registered. */
  lemma CloseFromTheLastCallback(chunk: string) returns (labels: seq<Label>)
    requires chunk != ""
    ensures Legal(labels) && Run(labels).pc == Done(ByCompletion) && Run(labels).closer == Finished
    ensures Run(labels).heard
            == [TurnStarted, ResponseStarted, ResponseDelta(0, chunk), ResponseCompleted(chunk),
                TurnCompleted, SessionClosed]
  {
    hide Run, Legal;
    var l0 := Delivers(chunk);
    var l1 := Completes(l0, AfterOne(chunk), chunk);
    var l2 := Extend(l1, Advance, Emit(Run(l1), TurnCompleted).(pc := Leaving(ByCompletion)));
    var l3 := CloseNow(l2);
    labels := Leaves(l3, ByCompletion);
  }

  /** A close by another thread does the same when the turn completes after the closing
      section and before the callbacks are cleared. */
  lemma CloseRacesTheEnd(chunk: string) returns (labels: seq<Label>)
    requires chunk != ""
    ensures Legal(labels) && Run(labels).pc == Leaving(ByCompletion) && Run(labels).closer == Finished
    ensures Run(labels).heard
            == [TurnStarted, ResponseStarted, ResponseDelta(0, chunk), ResponseCompleted(chunk),
                TurnCompleted, SessionClosed]
  {
    hide Run, Legal;
    var l0 := Delivers(chunk);
    var l1 := Completes(l0, AfterOne(chunk), chunk);
    var t := Run(l1).(closed := true, interrupt := true, closedAt := Some(Completed), closer := Noted(true));
    var l2 := Extend(l1, CloseSection, t);
    var t3 := Emit(t, TurnCompleted).(pc := Leaving(ByCompletion));
    var l3 := Extend(l2, Advance, t3);
    labels := CloseSteps(l3);
  }

  /** A host that closes from its RESPONSE_COMPLETED callback hears one: the turn still
      completes, but its event reaches nobody. */
  lemma CloseWhileCompleting(chunk: string) returns (labels: seq<Label>)
    requires chunk != ""
    ensures Legal(labels) && Run(labels).pc == Done(ByCompletion) && Run(labels).closer == Finished
    ensures Run(labels).heard
            == [TurnStarted, ResponseStarted, ResponseDelta(0, chunk), ResponseCompleted(chunk), SessionClosed]
    ensures Run(labels).events == Run(labels).heard + [TurnCompleted]
  {
    hide Run, Legal;
    var l0 := Delivers(chunk);
    var l1 := Completes(l0, AfterOne(chunk), chunk);
    var l2 := CloseNow(l1);
    var l3 := Extend(l2, Advance, Emit(Run(l2), TurnCompleted).(pc := Leaving(ByCompletion)));
    labels := Leaves(l3, ByCompletion);
  }

  lemma Leaves(labels: seq<Label>, exit: Exit) returns (more: seq<Label>)
    requires Legal(labels) && Run(labels).pc == Leaving(exit) && Run(labels).closed
    ensures Legal(more) && Run(more) == Run(labels).(active := false, pc := Done(exit))
  {
    hide Run, Legal;
    var t := Run(labels).(active := false);
    var l1 := Extend(labels, Advance, t.(pc := Left(exit)));
    more := Extend(l1, Advance, t.(pc := Done(exit)));
  }

  /** What is left of a close that has noted an active turn. */
  lemma CloseSteps(labels: seq<Label>) returns (more: seq<Label>)
    requires Legal(labels) && Run(labels).closer == Noted(true)
    ensures Legal(more)
    ensures Run(more) == Emit(Run(labels), SessionClosed).(active := false, state := ClosedState, closer := Finished)
  {
    hide Run, Legal;
    var t := Run(labels);
    var l2 := Extend(labels, CloseStep, t.(closer := StateSet, state := ClosedState));
    var t3 := Emit(t, SessionClosed).(closer := Emitted, state := ClosedState);
    var l3 := Extend(l2, CloseStep, t3);
    more := Extend(l3, CloseStep, t3.(closer := Finished, active := false));
  }

  /** A whole close while a turn is active. */
  lemma CloseNow(labels: seq<Label>) returns (more: seq<Label>)
    requires Legal(labels) && !Run(labels).closed && Run(labels).active && Run(labels).closer.NotCalled?
    ensures Legal(more)
    ensures var t := Run(labels);
            Run(more) == Emit(t, SessionClosed).(closed := true, interrupt := true, active := false,
                                                 state := ClosedState, closer := Finished, closedAt := Some(t.pc))
  {
    hide Run, Legal;
    var t := Run(labels);
    var l1 := Extend(labels, CloseSection,
                     t.(closed := true, interrupt := true, closedAt := Some(t.pc), closer := Noted(true)));
    more := CloseSteps(l1);
  }
}
