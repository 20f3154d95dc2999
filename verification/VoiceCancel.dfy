/** Cooperative cancellation of an in-flight synthesis
    (framework/_realtime_voice_output_control.py): the worker's completion and release
    sections, the two sections of any number of `cancel` calls around a bounded wait, and
    `flush`, over the generation gate and the reference artifact store. One lock section is
    one step; a work identity is its position in `works`. */
module VoiceCancel {
  import opened Common
  import G = GenerationGate

  type WorkId = nat
  type ArtifactId = nat

  datatype Context = Context(session: nat, turn: G.TurnId, generation: G.GenerationId)

  datatype Artifact = Artifact(generation: Option<G.GenerationId>, playable: bool)
  type Store = map<ArtifactId, Artifact>

  /** What the provider produced: a URL of its own, an artifact of the store, both or none. */
  datatype Audio = Audio(url: bool, artifact: Option<ArtifactId>)

  datatype Envelope = Delivered(audio: Audio) | Cancelled | Stale

  datatype Phase =
    | Running                       // claimed, up to the completion section
    | Completed(envelope: Envelope) // after the completion section, before the release
    | Failed                        // raised, before the release
    | Returned(envelope: Envelope)
    | Raised

  datatype Work = Work(context: Context, phase: Phase, produced: Option<ArtifactId>)

  datatype Outcome = AlreadyClosed | NoActiveGeneration | WorkMismatch | CancelCompleted | TimedOut

  datatype Result = Result(outcome: Outcome, context: Context, work: Option<WorkId>, suppressed: bool)

  /** One `cancel`, on its own or inside a `flush` that saw work `flush.value` active. */
  datatype Stage =
    | Seen                                   // flush only: the snapshot is taken
    | SignalMissing                          // raised: the active work has no event
    | Waiting(work: WorkId, done: WorkId)    // after the first section, on `done`'s event
    | Waited(work: WorkId, completed: bool)
    | Answered(result: Result)
    | Flushed(result: Result)

  datatype Call = Call(flush: Option<WorkId>, stage: Stage)

  datatype Sys = Sys(
    gated: bool,
    history: G.History,
    store: Store,
    closed: bool,
    active: Option<WorkId>,
    activeDone: Option<WorkId>,
    cancelRequested: Option<WorkId>,
    lastCancelWork: Option<WorkId>,
    lastCancelResult: Option<Result>,
    works: seq<Work>,
    calls: seq<Call>)

  function InitialSys(gated: bool): Sys {
    Sys(gated, G.History(G.INITIAL_GATE, {}, 0, 0), map[], false, None, None, None, None, None, [], [])
  }

  // ------------------------------------------------------------------ store

  /** `_bind_result_artifact`: None is the exception. */
  function Bind(store: Store, a: Option<ArtifactId>, g: G.GenerationId): Option<Store> {
    if a.None? then Some(store)
    else if a.value !in store || !store[a.value].playable then None
    else if store[a.value].generation.Some? && store[a.value].generation.value != g then None
    else Some(store[a.value := Artifact(Some(g), true)])
  }

  function Invalidate(store: Store, g: G.GenerationId): Store {
    map a | a in store :: if store[a].generation == Some(g) then store[a].(playable := false) else store[a]
  }

  predicate Playable(store: Store, a: Option<ArtifactId>) {
    a.Some? && a.value in store && store[a.value].playable
  }

  // ------------------------------------------------------------------ steps

  datatype Label =
    | Claim(context: Context)
    | Complete(w: WorkId, audio: Audio)
    | Fail(w: WorkId)
    | Release(w: WorkId)
    | CancelEnter(context: Context, asked: Option<WorkId>)
    | WaitEnds(c: nat, completed: bool)
    | CancelFinish(c: nat)
    | FlushSees
    | FlushCancels(c: nat)
    | FlushInvalidates(c: nat)
    | InvalidateCompleted(context: Context)
    | CloseStage
    | NewArtifact(a: ArtifactId)
    | DropArtifact(a: ArtifactId)          // expire or delete
    | GateOp(op: G.Op)

  predicate IsDone(s: Sys, w: WorkId) {
    w < |s.works| && (s.works[w].phase.Returned? || s.works[w].phase.Raised?)
  }

  ghost predicate Enabled(s: Sys, l: Label) {
    match l
    case Claim(_) => true
    case Complete(w, _) => w < |s.works| && s.works[w].phase.Running?
    case Fail(w) => w < |s.works| && s.works[w].phase.Running?
    case Release(w) => w < |s.works| && (s.works[w].phase.Completed? || s.works[w].phase.Failed?)
    case CancelEnter(_, _) => true
    case WaitEnds(c, completed) =>
      c < |s.calls| && s.calls[c].stage.Waiting? && (completed ==> IsDone(s, s.calls[c].stage.done))
    case CancelFinish(c) =>
      c < |s.calls| && s.calls[c].stage.Waited? && s.calls[c].stage.work < |s.works|
    case FlushSees => s.active.Some?
    case FlushCancels(c) =>
      c < |s.calls| && s.calls[c].stage.Seen? && s.calls[c].flush.Some? && s.calls[c].flush.value < |s.works|
    case FlushInvalidates(c) =>
      c < |s.calls| && s.calls[c].stage.Answered? && s.calls[c].flush.Some? && s.calls[c].flush.value < |s.works|
    case InvalidateCompleted(_) => true
    case CloseStage => true
    case NewArtifact(a) => a !in s.store
    case DropArtifact(_) => true
    case GateOp(op) => G.Enabled(s.history, op)
  }

  function SetPhase(s: Sys, w: WorkId, phase: Phase): Sys
    requires w < |s.works|
  {
    s.(works := s.works[w := s.works[w].(phase := phase)])
  }

  /** The completion section of `_run_claimed`. */
  ghost function CompleteWork(s: Sys, w: WorkId, audio: Audio): Sys
    requires w < |s.works|
  {
    var x := s.works[w].context;
    var cancelled := s.cancelRequested == Some(w);
    var asksGate := !cancelled && s.gated;
    var stale := asksGate && !s.history.gate.Classify(x.turn, x.generation).accepted;
    var h := if asksGate then G.Step(s.history, G.AdmitOp(x.turn, x.generation)) else s.history;
    var bound := Bind(s.store, audio.artifact, x.generation);
    if s.active != Some(w) then SetPhase(s, w, Failed)
    else if bound.None? then SetPhase(s, w, Failed).(history := h)
    else
      var e := if cancelled then Cancelled else if stale then Stale else Delivered(audio);
      s.(history := h,
         store := if e.Delivered? then bound.value else Invalidate(bound.value, x.generation),
         works := s.works[w := Work(x, Completed(e), audio.artifact)])
  }

  /** The answer of `cancel`'s first section, None when it installs the barrier on the
      active work and goes on to wait. */
  function FirstAnswer(s: Sys, x: Context, asked: Option<WorkId>): Option<Result>
    requires s.active.Some? ==> s.active.value < |s.works|
  {
    if s.closed then Some(Result(AlreadyClosed, x, asked, false))
    else if s.active.None? then
      if s.lastCancelResult.Some? && s.lastCancelResult.value.context == x
         && (asked.None? || asked == s.lastCancelWork)
      then s.lastCancelResult
      else Some(Result(NoActiveGeneration, x, asked, false))
    else if s.works[s.active.value].context != x || (asked.Some? && asked != s.active) then
      Some(Result(WorkMismatch, x, asked, false))
    else if s.lastCancelResult.Some? && s.lastCancelWork == s.active then s.lastCancelResult
    else None
  }

  /** The first section, and the stage it leaves its call in. */
  function Enter(s: Sys, x: Context, asked: Option<WorkId>): (Sys, Stage)
    requires s.active.Some? ==> s.active.value < |s.works|
  {
    var answer := FirstAnswer(s, x, asked);
    if answer.Some? then (s, Answered(answer.value))
    else if s.active.None? || s.activeDone.None? then (s, SignalMissing)
    else (s.(cancelRequested := s.active, store := Invalidate(s.store, x.generation)),
          Waiting(s.active.value, s.activeDone.value))
  }

  /** The second section. */
  function Finish(s: Sys, w: WorkId, completed: bool): (Sys, Result)
    requires w < |s.works|
  {
    if s.lastCancelResult.Some? && s.lastCancelWork == Some(w) then (s, s.lastCancelResult.value)
    else
      var r := Result(if completed then CancelCompleted else TimedOut, s.works[w].context, Some(w), true);
      (s.(lastCancelWork := Some(w), lastCancelResult := Some(r)), r)
  }

  function SetStage(s: Sys, c: nat, stage: Stage): Sys
    requires c < |s.calls|
  {
    s.(calls := s.calls[c := s.calls[c].(stage := stage)])
  }

  ghost predicate ActiveInRange(s: Sys) {
    s.active.Some? ==> s.active.value < |s.works|
  }

  ghost function Apply(s: Sys, l: Label): Sys
    requires Enabled(s, l) && ActiveInRange(s)
  {
    match l
    case Claim(x) =>                       // raises when closed or already active
      if s.closed || s.active.Some? then s
      else s.(works := s.works + [Work(x, Running, None)], active := Some(|s.works|),
              activeDone := Some(|s.works|), cancelRequested := None,
              lastCancelWork := None, lastCancelResult := None)
    case Complete(w, audio) => CompleteWork(s, w, audio)
    case Fail(w) => SetPhase(s, w, Failed)
    case Release(w) =>
      var p := s.works[w].phase;
      SetPhase(s, w, if p.Completed? then Returned(p.envelope) else Raised)
      .(active := if s.active == Some(w) then None else s.active)
    case CancelEnter(x, asked) =>
      var (s', stage) := Enter(s, x, asked);
      s'.(calls := s.calls + [Call(None, stage)])
    case WaitEnds(c, completed) => SetStage(s, c, Waited(s.calls[c].stage.work, completed))
    case CancelFinish(c) =>
      var (s', r) := Finish(s, s.calls[c].stage.work, s.calls[c].stage.completed);
      SetStage(s', c, Answered(r))
    case FlushSees => s.(calls := s.calls + [Call(s.active, Seen)])
    case FlushCancels(c) =>
      var w := s.calls[c].flush.value;
      var (s', stage) := Enter(s, s.works[w].context, Some(w));
      SetStage(s', c, stage)
    case FlushInvalidates(c) =>
      var x := s.works[s.calls[c].flush.value].context;
      SetStage(s, c, Flushed(s.calls[c].stage.result)).(store := Invalidate(s.store, x.generation))
    case InvalidateCompleted(x) => s.(store := Invalidate(s.store, x.generation))
    case CloseStage => s.(closed := true)
    case NewArtifact(a) => s.(store := s.store[a := Artifact(None, true)])
    case DropArtifact(a) =>
      if a in s.store then s.(store := s.store[a := s.store[a].(playable := false)]) else s
    case GateOp(op) => s.(history := G.Step(s.history, op))
  }

  // -------------------------------------------------------------- invariant

  predicate Unreleased(p: Phase) { p.Running? || p.Completed? || p.Failed? }

  /** One work at a time is between its claim and its release, and the stage knows it. */
  ghost predicate OneActive(s: Sys) {
    && ActiveInRange(s)
    && (s.active.Some? ==> s.activeDone == s.active)
    && forall w :: 0 <= w < |s.works| ==> (Unreleased(s.works[w].phase) <==> s.active == Some(w))
  }

  /** A result that claims suppression is about work that exists, in that work's context. */
  ghost predicate Honest(s: Sys, r: Result) {
    r.suppressed ==>
      && r.work.Some? && r.work.value < |s.works| && s.works[r.work.value].context == r.context
      && (r.outcome.CancelCompleted? || r.outcome.TimedOut?)
      && (r.outcome.CancelCompleted? ==> IsDone(s, r.work.value))
  }

  ghost predicate StageInv(s: Sys, call: Call) {
    && (call.flush.Some? ==> call.flush.value < |s.works|)
    && match call.stage
       case Seen => call.flush.Some?
       case SignalMissing => false
       case Waiting(w, done) => w < |s.works| && done == w
       case Waited(w, completed) => w < |s.works| && (completed ==> IsDone(s, w))
       case Answered(r) => Honest(s, r)
       case Flushed(r) => Honest(s, r) && call.flush.Some?
  }

  ghost predicate CallsInv(s: Sys) {
    && (s.lastCancelResult.Some? ==>
          && s.lastCancelResult.value.suppressed
          && s.lastCancelResult.value.work == s.lastCancelWork
          && Honest(s, s.lastCancelResult.value))
    && (s.cancelRequested.Some? ==> s.cancelRequested.value < |s.works|)
    && forall c :: 0 <= c < |s.calls| ==> StageInv(s, s.calls[c])
  }

  /** The envelope of a phase, if it has one. */
  function EnvelopeOf(p: Phase): Option<Envelope> {
    match p
    case Completed(e) => Some(e)
    case Returned(e) => Some(e)
    case _ => None
  }

  /** Whatever a completed work produced is bound to that work's generation, and an
      un-suppressed envelope names nothing else. */
  ghost predicate ProducedIsBound(s: Sys) {
    forall w :: 0 <= w < |s.works| ==> WorkIsBound(s.store, s.works[w])
  }

  ghost predicate WorkIsBound(store: Store, w: Work) {
    && (w.produced.Some? ==>
          w.produced.value in store && store[w.produced.value].generation == Some(w.context.generation))
    && (EnvelopeOf(w.phase).None? ==> w.produced.None?)
    && (EnvelopeOf(w.phase).Some? && EnvelopeOf(w.phase).value.Delivered? ==>
          w.produced == EnvelopeOf(w.phase).value.audio.artifact)
  }

  ghost predicate GateInv(s: Sys) { G.Inv(s.history) && G.Accounted(s.history) }

  ghost predicate Inv(s: Sys) {
    OneActive(s) && CallsInv(s) && ProducedIsBound(s) && GateInv(s)
  }

  /** Works are only added; contexts are fixed and released works stay released. */
  ghost predicate Grows(s: Sys, s': Sys) {
    && |s.works| <= |s'.works|
    && forall w :: 0 <= w < |s.works| ==>
         s'.works[w].context == s.works[w].context && (IsDone(s, w) ==> IsDone(s', w))
  }

  /** Only these labels touch the works. */
  predicate WorkerLabel(l: Label) { l.Claim? || l.Complete? || l.Fail? || l.Release? }

  ghost predicate SameWorks(s: Sys, s': Sys) {
    s'.works == s.works && s'.active == s.active && s'.activeDone == s.activeDone
  }

  lemma OthersLeaveTheWorks(s: Sys, l: Label)
    requires ActiveInRange(s) && Enabled(s, l) && !WorkerLabel(l)
    ensures SameWorks(s, Apply(s, l))
  {
    hide Invalidate, G.Step, FirstAnswer, G.Enabled;
  }

  lemma CompleteGrows(s: Sys, w: WorkId, audio: Audio)
    requires OneActive(s) && w < |s.works| && s.works[w].phase.Running?
    ensures Grows(s, CompleteWork(s, w, audio)) && OneActive(CompleteWork(s, w, audio))
  {
    hide Bind, Invalidate, G.Step, G.Gate.Classify;
  }

  lemma StepGrows(s: Sys, l: Label)
    requires OneActive(s) && Enabled(s, l)
    ensures Grows(s, Apply(s, l)) && OneActive(Apply(s, l))
  {
    hide CompleteWork, Enter, Finish, Invalidate, G.Step, G.Enabled;
    match l
    case Claim(_) =>
    case Complete(w, audio) => CompleteGrows(s, w, audio);
    case Fail(_) =>
    case Release(_) =>
    case _ => OthersLeaveTheWorks(s, l);
  }

  lemma GrowsKeepsHonest(s: Sys, s': Sys, r: Result)
    requires Grows(s, s') && Honest(s, r)
    ensures Honest(s', r)
  {
  }

  lemma GrowsKeepsStage(s: Sys, s': Sys, call: Call)
    requires Grows(s, s') && StageInv(s, call)
    ensures StageInv(s', call)
  {
    hide Honest;
    match call.stage
    case Answered(r) => GrowsKeepsHonest(s, s', r);
    case Flushed(r) => GrowsKeepsHonest(s, s', r);
    case _ =>
  }

  // What a `cancel` section adds to the calls.

  lemma AnswerIsHonest(s: Sys, x: Context, asked: Option<WorkId>)
    requires OneActive(s) && CallsInv(s)
    ensures FirstAnswer(s, x, asked).Some? ==> Honest(s, FirstAnswer(s, x, asked).value)
    ensures !Enter(s, x, asked).1.SignalMissing?
  {
  }

  lemma EnterKeepsCalls(s: Sys, x: Context, asked: Option<WorkId>, flush: Option<WorkId>)
    requires OneActive(s) && CallsInv(s) && (flush.Some? ==> flush.value < |s.works|)
    ensures var (s', stage) := Enter(s, x, asked);
            CallsInv(s') && StageInv(s', Call(flush, stage)) && s'.calls == s.calls && s'.works == s.works
  {
    hide FirstAnswer, Invalidate, Honest;
    AnswerIsHonest(s, x, asked);
    var (s', stage) := Enter(s, x, asked);
    assert Grows(s, s');
    SameCalls(s, s');
    if stage.Answered? { GrowsKeepsHonest(s, s', stage.result); }
  }

  /** Nothing a call says depends on more than the works. */
  lemma SameCalls(s: Sys, s': Sys)
    requires CallsInv(s) && Grows(s, s')
    requires s'.calls == s.calls
    requires s'.lastCancelResult.Some? ==>
               s'.lastCancelResult == s.lastCancelResult && s'.lastCancelWork == s.lastCancelWork
    requires s'.cancelRequested.Some? ==> s'.cancelRequested.value < |s'.works|
    ensures CallsInv(s')
  {
    hide Grows, Honest, StageInv;
    if s'.lastCancelResult.Some? { GrowsKeepsHonest(s, s', s.lastCancelResult.value); }
    forall c | 0 <= c < |s'.calls| ensures StageInv(s', s'.calls[c]) {
      GrowsKeepsStage(s, s', s.calls[c]);
    }
  }

  lemma FinishKeepsCalls(s: Sys, w: WorkId, completed: bool)
    requires CallsInv(s) && w < |s.works| && (completed ==> IsDone(s, w))
    ensures var (s', r) := Finish(s, w, completed);
            CallsInv(s') && Honest(s', r) && s'.calls == s.calls && s'.works == s.works && r.suppressed
            && r.work == Some(w)
  {
    hide StageInv;
    var (s', r) := Finish(s, w, completed);
    assert Grows(s, s');
    forall c | 0 <= c < |s'.calls| ensures StageInv(s', s'.calls[c]) {
      GrowsKeepsStage(s, s', s.calls[c]);
    }
  }

  lemma SetStageKeepsCalls(s: Sys, c: nat, stage: Stage)
    requires CallsInv(s) && c < |s.calls| && StageInv(s, s.calls[c].(stage := stage))
    ensures CallsInv(SetStage(s, c, stage))
  {
    hide StageInv, Honest;
    var s' := SetStage(s, c, stage);
    assert Grows(s, s');
    forall k | 0 <= k < |s'.calls| ensures StageInv(s', s'.calls[k]) {
      GrowsKeepsStage(s, s', s'.calls[k]);
    }
    if s.lastCancelResult.Some? { GrowsKeepsHonest(s, s', s.lastCancelResult.value); }
  }

  lemma AddCallKeepsCalls(s: Sys, call: Call)
    requires CallsInv(s) && StageInv(s, call)
    ensures CallsInv(s.(calls := s.calls + [call]))
  {
    hide StageInv, Honest;
    var s' := s.(calls := s.calls + [call]);
    assert Grows(s, s');
    forall k | 0 <= k < |s'.calls| ensures StageInv(s', s'.calls[k]) {
      GrowsKeepsStage(s, s', s'.calls[k]);
    }
    if s.lastCancelResult.Some? { GrowsKeepsHonest(s, s', s.lastCancelResult.value); }
  }

  lemma CallStepKeepsCalls(s: Sys, l: Label)
    requires OneActive(s) && CallsInv(s) && Enabled(s, l)
    requires l.CancelEnter? || l.WaitEnds? || l.CancelFinish? || l.FlushSees? || l.FlushCancels?
             || l.FlushInvalidates?
    ensures CallsInv(Apply(s, l))
  {
    hide CallsInv, Enter, Finish, Invalidate, OneActive, Honest;
    ActiveExists(s);
    match l
    case CancelEnter(x, asked) =>
      EnterKeepsCalls(s, x, asked, None);
      AddCallKeepsCalls(Enter(s, x, asked).0, Call(None, Enter(s, x, asked).1));
    case WaitEnds(c, completed) =>
      StageOfCall(s, c);
      SetStageKeepsCalls(s, c, Waited(s.calls[c].stage.work, completed));
    case CancelFinish(c) =>
      StageOfCall(s, c);
      var (s', r) := Finish(s, s.calls[c].stage.work, s.calls[c].stage.completed);
      FinishKeepsCalls(s, s.calls[c].stage.work, s.calls[c].stage.completed);
      SetStageKeepsCalls(s', c, Answered(r));
    case FlushSees =>
      AddCallKeepsCalls(s, Call(s.active, Seen));
    case FlushCancels(c) =>
      var w := s.calls[c].flush.value;
      EnterKeepsCalls(s, s.works[w].context, Some(w), Some(w));
      var (s', stage) := Enter(s, s.works[w].context, Some(w));
      assert s.calls[c].(stage := stage) == Call(Some(w), stage);
      SetStageKeepsCalls(s', c, stage);
    case FlushInvalidates(c) =>
      StageOfCall(s, c);
      var s1 := SetStage(s, c, Flushed(s.calls[c].stage.result));
      SetStageKeepsCalls(s, c, Flushed(s.calls[c].stage.result));
      SameCallsBut(s1, Apply(s, l));
  }

  lemma StageOfCall(s: Sys, c: nat)
    requires CallsInv(s) && c < |s.calls|
    ensures StageInv(s, s.calls[c])
  {
  }

  lemma ActiveExists(s: Sys)
    requires OneActive(s)
    ensures ActiveInRange(s)
  {
  }

  lemma SameCallsBut(s: Sys, s': Sys)
    requires CallsInv(s) && s' == s.(store := s'.store)
    ensures CallsInv(s')
  {
    SameCalls(s, s');
  }

  lemma CompleteLeavesTheCalls(s: Sys, w: WorkId, audio: Audio)
    requires w < |s.works|
    ensures var s' := CompleteWork(s, w, audio);
            s' == s.(works := s'.works, store := s'.store, history := s'.history)
  {
    hide Bind, Invalidate, G.Step, G.Gate.Classify;
  }

  lemma OtherStepKeepsCalls(s: Sys, l: Label)
    requires OneActive(s) && CallsInv(s) && Enabled(s, l)
    requires !(l.CancelEnter? || l.WaitEnds? || l.CancelFinish? || l.FlushSees? || l.FlushCancels?
               || l.FlushInvalidates?)
    ensures CallsInv(Apply(s, l))
  {
    hide CompleteWork, Invalidate, G.Step, G.Enabled, StageInv, Honest, OneActive;
    ActiveExists(s);
    StepGrows(s, l);
    if l.Complete? { CompleteLeavesTheCalls(s, l.w, l.audio); }
    SameCalls(s, Apply(s, l));
  }

  // ------------------------------------------------- the store and the gate

  /** Bindings are never undone and a dead artifact stays dead. */
  ghost predicate StoreGrows(a: Store, b: Store) {
    forall k :: k in a ==>
      && k in b
      && (a[k].generation.Some? ==> b[k].generation == a[k].generation)
      && (b[k].playable ==> a[k].playable)
  }

  lemma BindGrows(store: Store, a: Option<ArtifactId>, g: G.GenerationId)
    ensures Bind(store, a, g).Some? ==> StoreGrows(store, Bind(store, a, g).value)
  {
  }

  lemma InvalidateGrows(store: Store, g: G.GenerationId)
    ensures StoreGrows(store, Invalidate(store, g))
  {
  }

  lemma GrowthComposes(a: Store, b: Store, c: Store)
    requires StoreGrows(a, b) && StoreGrows(b, c)
    ensures StoreGrows(a, c)
  {
  }

  lemma CompleteGrowsStore(s: Sys, w: WorkId, audio: Audio)
    requires w < |s.works|
    ensures StoreGrows(s.store, CompleteWork(s, w, audio).store)
  {
    hide G.Step, G.Gate.Classify, Bind, Invalidate;
    var g := s.works[w].context.generation;
    var bound := Bind(s.store, audio.artifact, g);
    BindGrows(s.store, audio.artifact, g);
    if bound.Some? {
      InvalidateGrows(bound.value, g);
      hide StoreGrows;
      GrowthComposes(s.store, bound.value, Invalidate(bound.value, g));
    }
  }

  lemma StepGrowsStore(s: Sys, l: Label)
    requires ActiveInRange(s) && Enabled(s, l)
    ensures StoreGrows(s.store, Apply(s, l).store)
  {
    hide CompleteWork, FirstAnswer, G.Step, G.Enabled;
    if l.Complete? { CompleteGrowsStore(s, l.w, l.audio); }
  }

  /** What the completion section makes of its own work. */
  lemma CompleteBinds(s: Sys, w: WorkId, audio: Audio)
    requires OneActive(s) && w < |s.works| && s.works[w].phase.Running? && WorkIsBound(s.store, s.works[w])
    ensures var s' := CompleteWork(s, w, audio);
            && |s'.works| == |s.works|
            && (forall v :: 0 <= v < |s.works| && v != w ==> s'.works[v] == s.works[v])
            && WorkIsBound(s'.store, s'.works[w])
            && !s'.works[w].phase.Running?
            && (s.cancelRequested == Some(w) ==>
                  !HandsOver(s', w) && !Playable(s'.store, s'.works[w].produced))
  {
    hide G.Step, G.Gate.Classify;
  }

  lemma StepKeepsProduced(s: Sys, l: Label)
    requires OneActive(s) && ProducedIsBound(s) && Enabled(s, l)
    ensures ProducedIsBound(Apply(s, l))
  {
    hide CompleteWork, Enter, Finish, Invalidate, G.Step, G.Enabled;
    StepGrowsStore(s, l);
    if l.Complete? { CompleteBinds(s, l.w, l.audio); }
    else if !WorkerLabel(l) { OthersLeaveTheWorks(s, l); }
  }

  lemma StepKeepsGate(s: Sys, l: Label)
    requires GateInv(s) && ActiveInRange(s) && Enabled(s, l)
    ensures GateInv(Apply(s, l))
  {
    hide G.Inv, G.Accounted, G.Step, Bind, Invalidate, FirstAnswer;
    match l
    case GateOp(op) => G.StepKeepsInv(s.history, op);
    case Complete(w, _) =>
      var x := s.works[w].context;
      G.StepKeepsInv(s.history, G.AdmitOp(x.turn, x.generation));
    case _ =>
  }

  lemma StepKeepsInv(s: Sys, l: Label)
    requires Inv(s) && Enabled(s, l)
    ensures Inv(Apply(s, l))
  {
    hide OneActive, CallsInv, ProducedIsBound, GateInv, Apply, Enabled, Grows, WorkerLabel;
    ActiveExists(s);
    StepGrows(s, l);
    StepKeepsProduced(s, l);
    StepKeepsGate(s, l);
    if l.CancelEnter? || l.WaitEnds? || l.CancelFinish? || l.FlushSees? || l.FlushCancels? || l.FlushInvalidates? {
      CallStepKeepsCalls(s, l);
    } else {
      OtherStepKeepsCalls(s, l);
    }
  }

  // ------------------------------------------------------- the barrier, by step

  /** Label `l` is a cancel's first section that puts the barrier on work `w`. */
  ghost predicate Installs(s: Sys, l: Label, w: WorkId) {
    && ActiveInRange(s) && Enabled(s, l) && s.active == Some(w)
    && match l
       case CancelEnter(x, asked) => FirstAnswer(s, x, asked).None?
       case FlushCancels(c) =>
         var f := s.calls[c].flush.value;
         FirstAnswer(s, s.works[f].context, Some(f)).None?
       case _ => false
  }

  /** The worker of `w` returns audio to its caller, or is about to. */
  ghost predicate HandsOver(s: Sys, w: WorkId) {
    && w < |s.works|
    && EnvelopeOf(s.works[w].phase).Some? && EnvelopeOf(s.works[w].phase).value.Delivered?
  }

  /** The barrier holds: still running with the request noted, or past completion without audio. */
  ghost predicate Barred(s: Sys, w: WorkId) {
    && w < |s.works|
    && (s.works[w].phase.Running? ==> s.cancelRequested == Some(w))
    && !HandsOver(s, w)
  }

  /** As Barred, about the store: nothing `w` produced can be opened, now or later. */
  ghost predicate Dead(s: Sys, w: WorkId) {
    && w < |s.works|
    && (s.works[w].phase.Running? ==> s.cancelRequested == Some(w))
    && !Playable(s.store, s.works[w].produced)
  }

  /** The request on an active work is only ever replaced by another on that same work. */
  lemma RequestStays(s: Sys, l: Label, w: WorkId)
    requires OneActive(s) && Enabled(s, l) && w < |s.works| && s.works[w].phase.Running?
    requires s.cancelRequested == Some(w)
    ensures Apply(s, l).cancelRequested == Some(w)
  {
    hide CompleteWork, FirstAnswer, Invalidate, G.Step, G.Enabled;
    if l.Complete? { CompleteLeavesTheCalls(s, l.w, l.audio); }
  }

  /** One worker step moves one work on; nothing else touches a work. */
  lemma WorkMoves(s: Sys, l: Label, w: WorkId)
    requires OneActive(s) && Enabled(s, l) && w < |s.works| && !(l.Complete? && l.w == w)
    ensures w < |Apply(s, l).works|
    ensures Apply(s, l).works[w].produced == s.works[w].produced
    ensures EnvelopeOf(Apply(s, l).works[w].phase) == EnvelopeOf(s.works[w].phase)
    ensures Apply(s, l).works[w].phase.Running? ==> s.works[w].phase.Running?
  {
    hide Enter, Finish, Bind, Invalidate, G.Step, G.Gate.Classify, G.Enabled;
    if !WorkerLabel(l) { OthersLeaveTheWorks(s, l); }
  }

  lemma BarredStays(s: Sys, l: Label, w: WorkId)
    requires Inv(s) && Enabled(s, l) && Barred(s, w)
    ensures Barred(Apply(s, l), w)
  {
    hide CallsInv, GateInv, CompleteWork, Enter, Finish, Invalidate, G.Step, G.Enabled;
    if l.Complete? && l.w == w {
      CompleteBinds(s, w, l.audio);
    } else {
      WorkMoves(s, l, w);
      if s.works[w].phase.Running? { RequestStays(s, l, w); }
    }
  }

  lemma DeadStays(s: Sys, l: Label, w: WorkId)
    requires Inv(s) && Enabled(s, l) && Dead(s, w)
    ensures Dead(Apply(s, l), w)
  {
    hide CallsInv, GateInv, CompleteWork, Enter, Finish, Invalidate, G.Step, G.Enabled;
    if l.Complete? && l.w == w {
      CompleteBinds(s, w, l.audio);
    } else {
      WorkMoves(s, l, w);
      StepGrowsStore(s, l);
      if s.works[w].phase.Running? { RequestStays(s, l, w); }
    }
  }

  lemma HandedOverStays(s: Sys, l: Label, w: WorkId)
    requires OneActive(s) && Enabled(s, l) && HandsOver(s, w)
    ensures HandsOver(Apply(s, l), w)
  {
    hide OneActive, Apply;
    WorkMoves(s, l, w);
  }

  /** An installing section bars the work exactly when it precedes a completion with
      audio; whichever comes first, the work's artifact is dead. */
  lemma InstallBars(s: Sys, l: Label, w: WorkId)
    requires Inv(s) && Installs(s, l, w)
    ensures w < |s.works|
    ensures if HandsOver(s, w) then HandsOver(Apply(s, l), w) else Barred(Apply(s, l), w)
    ensures Dead(Apply(s, l), w)
  {
    hide CallsInv, GateInv, G.Step, G.Enabled;
    assert WorkIsBound(s.store, s.works[w]);
  }

  // ---------------------------------------------------------- who claims what

  /** The call waits on `w`, or has reported its future delivery as suppressed. */
  ghost predicate CallClaims(call: Call, w: WorkId) {
    match call.stage
    case Seen => false
    case SignalMissing => false
    case Waiting(v, _) => v == w
    case Waited(v, _) => v == w
    case Answered(r) => r.suppressed && r.work == Some(w)
    case Flushed(r) => r.suppressed && r.work == Some(w)
  }

  ghost predicate CacheClaims(s: Sys, w: WorkId) {
    s.lastCancelResult.Some? && s.lastCancelResult.value.work == Some(w)
  }

  ghost predicate Claims(s: Sys, w: WorkId) {
    CacheClaims(s, w) || exists c :: 0 <= c < |s.calls| && CallClaims(s.calls[c], w)
  }

  /** A cancel section's own claim is either an old one or a barrier it installs. */
  lemma EnterClaims(s: Sys, x: Context, asked: Option<WorkId>, w: WorkId)
    requires OneActive(s) && CallsInv(s)
    requires CallClaims(Call(None, Enter(s, x, asked).1), w)
    ensures CacheClaims(s, w) || (FirstAnswer(s, x, asked).None? && s.active == Some(w))
  {
  }

  lemma OldClaim(s: Sys, c: nat, w: WorkId)
    requires c < |s.calls| && CallClaims(s.calls[c], w)
    ensures Claims(s, w)
  {
  }

  /** Only one call moves per step. */
  ghost predicate MovesOnly(s: Sys, s': Sys, c: nat) {
    && |s.calls| <= |s'.calls| <= |s.calls| + 1
    && (|s'.calls| > |s.calls| ==> c == |s.calls|)
    && forall k :: 0 <= k < |s.calls| && k != c ==> s'.calls[k] == s.calls[k]
  }

  lemma ClaimsMoveAt(s: Sys, s': Sys, c: nat, w: WorkId)
    requires MovesOnly(s, s', c)
    requires CacheClaims(s', w) ==> Claims(s, w)
    requires c < |s'.calls| && CallClaims(s'.calls[c], w) ==> Claims(s, w)
    ensures Claims(s', w) ==> Claims(s, w)
  {
    hide CallClaims;
  }

  lemma CallStepsClaim(s: Sys, l: Label, w: WorkId)
    requires OneActive(s) && CallsInv(s) && Enabled(s, l)
    requires l.WaitEnds? || l.CancelFinish? || l.FlushInvalidates?
    ensures Claims(Apply(s, l), w) ==> Claims(s, w)
  {
    hide Invalidate, Claims, StageInv, OneActive;
    ActiveExists(s);
    CacheIsAClaim(s, w);
    if CallClaims(s.calls[l.c], w) { OldClaim(s, l.c, w); }
    ClaimsMoveAt(s, Apply(s, l), l.c, w);
  }

  lemma EnterStepsClaim(s: Sys, l: Label, w: WorkId)
    requires OneActive(s) && CallsInv(s) && Enabled(s, l)
    requires l.CancelEnter? || l.FlushCancels?
    ensures Claims(Apply(s, l), w) ==> Claims(s, w) || Installs(s, l, w)
  {
    hide FirstAnswer, Invalidate, Claims, StageInv, Honest;
    CacheIsAClaim(s, w);
    var f := if l.FlushCancels? then s.calls[l.c].flush.value else 0;
    var x := if l.FlushCancels? then s.works[f].context else l.context;
    var asked := if l.FlushCancels? then Some(f) else l.asked;
    if CallClaims(Call(None, Enter(s, x, asked).1), w) { EnterClaims(s, x, asked, w); }
    if !Installs(s, l, w) {
      ClaimsMoveAt(s, Apply(s, l), if l.FlushCancels? then l.c else |s.calls|, w);
    }
  }

  /** No claim about a work appears except by a section that puts the barrier on it. */
  lemma ClaimsComeFromInstalls(s: Sys, l: Label, w: WorkId)
    requires OneActive(s) && CallsInv(s) && Enabled(s, l)
    requires Claims(Apply(s, l), w)
    ensures Claims(s, w) || Installs(s, l, w)
  {
    hide CompleteWork, Invalidate, G.Step, G.Enabled, Claims, Enter, Finish, OneActive, CallsInv;
    ActiveExists(s);
    match l
    case CancelEnter(_, _) => EnterStepsClaim(s, l, w);
    case FlushCancels(_) => EnterStepsClaim(s, l, w);
    case WaitEnds(_, _) => CallStepsClaim(s, l, w);
    case CancelFinish(_) => CallStepsClaim(s, l, w);
    case FlushInvalidates(_) => CallStepsClaim(s, l, w);
    case Complete(v, audio) =>
      CacheIsAClaim(s, w);
      CompleteLeavesTheCalls(s, v, audio);
      ClaimsMoveAt(s, Apply(s, l), |s.calls|, w);
    case _ =>
      CacheIsAClaim(s, w);
      ClaimsMoveAt(s, Apply(s, l), |s.calls|, w);
  }

  lemma CacheIsAClaim(s: Sys, w: WorkId)
    ensures CacheClaims(s, w) ==> Claims(s, w)
  {
  }

  // -------------------------------------------------------------------- runs

  ghost function Run(gated: bool, labels: seq<Label>): (s: Sys)
    decreases |labels|
  {
    if labels == [] then InitialSys(gated)
    else
      var s, l := Run(gated, labels[..|labels| - 1]), labels[|labels| - 1];
      if Enabled(s, l) && ActiveInRange(s) then Apply(s, l) else s
  }

  ghost predicate Legal(gated: bool, labels: seq<Label>)
    decreases |labels|
  {
    labels == []
    || (Legal(gated, labels[..|labels| - 1]) && Enabled(Run(gated, labels[..|labels| - 1]), labels[|labels| - 1]))
  }

  lemma InitialHasInv(gated: bool)
    ensures Inv(InitialSys(gated))
  {
    hide G.Inv, G.Accounted;
    G.InitialIsSound();
  }

  lemma InvGivesRange(s: Sys)
    requires Inv(s)
    ensures ActiveInRange(s) && OneActive(s) && CallsInv(s)
  {
    hide CallsInv;
  }

  lemma {:induction false} RunHasInv(gated: bool, labels: seq<Label>)
    requires Legal(gated, labels)
    ensures Inv(Run(gated, labels)) && ActiveInRange(Run(gated, labels))
    decreases |labels|
  {
    hide Inv, Apply, Enabled, ActiveInRange;
    if labels == [] {
      InitialHasInv(gated);
    } else {
      var init := labels[..|labels| - 1];
      RunHasInv(gated, init);
      StepKeepsInv(Run(gated, init), labels[|labels| - 1]);
    }
    InvGivesRange(Run(gated, labels));
  }

  ghost predicate InstallsAt(gated: bool, labels: seq<Label>, n: nat, w: WorkId) {
    n < |labels| && Installs(Run(gated, labels[..n]), labels[n], w)
  }

  /** The verdict of a barrier, for the rest of every run: a cancel whose first section
      precedes the worker's completion with audio bars it for good, a later one never does,
      and after either no artifact of the work can be opened again. */
  lemma {:induction false} VerdictOfABarrier(gated: bool, labels: seq<Label>, n: nat, w: WorkId)
    requires Legal(gated, labels) && InstallsAt(gated, labels, n, w)
    ensures HandsOver(Run(gated, labels), w) <==> HandsOver(Run(gated, labels[..n]), w)
    ensures !HandsOver(Run(gated, labels), w) ==> Barred(Run(gated, labels), w)
    ensures Dead(Run(gated, labels), w)
    decreases |labels|
  {
    hide Inv, Apply, Enabled, ActiveInRange, Installs, HandsOver, Barred, Dead;
    var init := labels[..|labels| - 1];
    var s, l := Run(gated, init), labels[|labels| - 1];
    RunHasInv(gated, init);
    InvGivesRange(s);
    if n == |labels| - 1 {
      InstallBars(s, l, w);
      BarredHandsNothing(Run(gated, labels), w);
    } else {
      assert init[..n] == labels[..n];
      VerdictOfABarrier(gated, init, n, w);
      DeadStays(s, l, w);
      if HandsOver(s, w) { HandedOverStays(s, l, w); } else { BarredStays(s, l, w); }
      BarredHandsNothing(Run(gated, labels), w);
    }
  }

  lemma BarredHandsNothing(s: Sys, w: WorkId)
    ensures Barred(s, w) ==> !HandsOver(s, w)
  {
  }

  /** Behind every claim of suppression there is a barrier in the same run. */
  lemma {:induction false} EveryClaimHasABarrier(gated: bool, labels: seq<Label>, w: WorkId) returns (n: nat)
    requires Legal(gated, labels) && Claims(Run(gated, labels), w)
    ensures InstallsAt(gated, labels, n, w)
    decreases |labels|
  {
    hide Inv, Apply, Enabled, ActiveInRange, Installs, Claims;
    if labels == [] {
      n := 0;
      NoClaimAtFirst(gated, w);
    } else {
      var init := labels[..|labels| - 1];
      var s, l := Run(gated, init), labels[|labels| - 1];
      RunHasInv(gated, init);
      InvGivesRange(s);
      ClaimsComeFromInstalls(s, l, w);
      if Claims(s, w) {
        n := EveryClaimHasABarrier(gated, init, w);
        assert init[..n] == labels[..n];
      } else {
        n := |labels| - 1;
      }
    }
  }

  lemma NoClaimAtFirst(gated: bool, w: WorkId)
    ensures !Claims(InitialSys(gated), w)
  {
  }

  /** The exact truth of `future_delivery_suppressed`: in every run, a call that reports it
      for a work is right, from then on, if and only if the barrier it rests on was put up
      before the work completed with audio; that holds however the wait ended, and for
      results taken from the cache. Either way the artifact is dead. */
  lemma SuppressionIsTrueIff(gated: bool, labels: seq<Label>, c: nat, w: WorkId) returns (n: nat)
    requires Legal(gated, labels) && c < |Run(gated, labels).calls|
    requires CallClaims(Run(gated, labels).calls[c], w)
    ensures InstallsAt(gated, labels, n, w)
    ensures HandsOver(Run(gated, labels), w) <==> HandsOver(Run(gated, labels[..n]), w)
    ensures Dead(Run(gated, labels), w)
  {
    hide Installs, HandsOver, Dead, CallClaims, Inv, Run, Legal;
    OldClaim(Run(gated, labels), c, w);
    n := EveryClaimHasABarrier(gated, labels, w);
    VerdictOfABarrier(gated, labels, n, w);
  }

  /** The store can take `a` for generation `g`: there is none, or it is one that can still be
      opened and belongs to no other generation. */
  predicate Bindable(store: Store, a: Option<ArtifactId>, g: G.GenerationId) {
    a.None?
    || (Playable(store, a)
        && (store[a.value].generation.None? || store[a.value].generation == Some(g)))
  }

  /** The completion section, exactly, in every reachable state: it raises if and only if the
      artifact cannot be bound; audio is handed over, as produced, if and only if it can, no
      cancel came first and the gate still owns the work's generation; it is suppressed as
      cancelled if a cancel came first and as stale otherwise, its artifact dead at once. The
      gate decides on the work unless a cancel came first. Artifacts of other generations are
      left alone, and the test that the work is still the active one never fails. */
  lemma CompletionIsExact(gated: bool, labels: seq<Label>, w: WorkId, audio: Audio)
    requires Legal(gated, labels) && Enabled(Run(gated, labels), Complete(w, audio))
    ensures ActiveInRange(Run(gated, labels))
    ensures var s := Run(gated, labels);
            var s' := Apply(s, Complete(w, audio));
            var x := s.works[w].context;
            var owned := s.gated ==> s.history.gate.active == Some(G.Active(x.turn, x.generation));
            && s.active == Some(w) && s.activeDone == Some(w)
            && (s'.works[w].phase.Failed? <==> !Bindable(s.store, audio.artifact, x.generation))
            && (!s'.works[w].phase.Failed? ==>
                  s'.works[w].produced == audio.artifact
                  && s'.works[w].phase == Completed(if s.cancelRequested == Some(w) then Cancelled
                                                    else if owned then Delivered(audio) else Stale))
            && (HandsOver(s', w) <==>
                  s.cancelRequested != Some(w) && owned && Bindable(s.store, audio.artifact, x.generation))
            && (HandsOver(s', w) && audio.artifact.Some? ==> Playable(s'.store, audio.artifact))
            && (EnvelopeOf(s'.works[w].phase).Some? && !HandsOver(s', w) ==> !Playable(s'.store, audio.artifact))
            && s'.history.presented
               == s.history.presented + (if s.gated && s.cancelRequested != Some(w) then 1 else 0)
            && forall a :: a in s.store && audio.artifact != Some(a) && s.store[a].generation != Some(x.generation) ==>
                 a in s'.store && s'.store[a] == s.store[a]
  {
    hide Run, Legal, CallsInv, ProducedIsBound, G.Inv, G.Accounted, G.ExactDecision;
    hide G.Gate.Classify, G.Gate.Admit;
    RunHasInv(gated, labels);
    var s := Run(gated, labels);
    var x := s.works[w].context;
    AcceptedIffActive(s.history, x.turn, x.generation);
  }

  lemma AcceptedIffActive(h: G.History, turn: G.TurnId, id: G.GenerationId)
    requires G.Inv(h)
    ensures h.gate.Classify(turn, id).accepted <==> h.gate.active == Some(G.Active(turn, id))
  {
    hide G.Inv, G.Gate.Classify;
    G.ExactIn(h, turn, id);
  }

  // ----------------------------------------------------- what can ever be opened

  /** From `s`, the labels can be taken one after the other and end in `s'`. */
  ghost predicate Leads(s: Sys, labels: seq<Label>, s': Sys)
    decreases |labels|
  {
    if labels == [] then s == s'
    else ActiveInRange(s) && Enabled(s, labels[0]) && Leads(Apply(s, labels[0]), labels[1..], s')
  }

  /** In some continuation an artifact of work `w` is playable. */
  ghost predicate CanBeOpened(s: Sys, w: WorkId) {
    exists labels, s' :: Leads(s, labels, s') && w < |s'.works| && Playable(s'.store, s'.works[w].produced)
  }

  /** Work that still runs with no cancel noted. */
  predicate Unprotected(s: Sys, w: WorkId) {
    w < |s.works| && s.works[w].phase.Running? && s.cancelRequested != Some(w)
  }

  /** There is no gate, or the work's generation is unissued, reserved, or active in the
      work's own turn: the gate owns it or can still come to. */
  ghost predicate MayOwn(s: Sys, w: WorkId)
    requires w < |s.works|
  {
    s.gated ==> Viable(s.history, s.works[w].context)
  }

  ghost predicate Viable(h: G.History, x: Context) {
    var stage := G.StageOf(h, x.generation);
    stage.Unissued? || stage.Reserved? || stage == G.IsActive(x.turn)
  }

  /** Nothing `w` produced is playable, and it will produce nothing that is. */
  ghost predicate Shut(s: Sys, w: WorkId) {
    && w < |s.works|
    && !Playable(s.store, s.works[w].produced)
    && (Unprotected(s, w) ==> !MayOwn(s, w))
  }

  lemma ShutIsUnplayable(s: Sys, w: WorkId)
    requires Shut(s, w)
    ensures w < |s.works| && !Playable(s.store, s.works[w].produced)
  {
  }

  /** A generation that is not viable never becomes so. */
  lemma ViableForward(h: G.History, op: G.Op, x: Context)
    requires G.Inv(h) && G.Enabled(h, op)
    ensures Viable(G.Step(h, op), x) ==> Viable(h, x)
  {
    hide G.Inv, G.Step, G.StageOf, G.Enabled;
    G.StepMovesForward(h, op, x.generation);
  }

  lemma AcceptedIsViable(h: G.History, x: Context)
    requires G.Inv(h) && h.gate.Classify(x.turn, x.generation).accepted
    ensures Viable(h, x)
  {
    hide G.Gate.Classify;
    AcceptedIffActive(h, x.turn, x.generation);
  }

  /** The completion of a work that no cancel preceded and the gate refuses. */
  lemma RefusedCompletion(s: Sys, w: WorkId, audio: Audio)
    requires OneActive(s) && w < |s.works| && s.works[w].phase.Running? && WorkIsBound(s.store, s.works[w])
    requires Unprotected(s, w) && s.gated
    requires !s.history.gate.Classify(s.works[w].context.turn, s.works[w].context.generation).accepted
    ensures var s' := CompleteWork(s, w, audio);
            w < |s'.works| && !s'.works[w].phase.Running? && !Playable(s'.store, s'.works[w].produced)
  {
    hide G.Step, G.Gate.Classify;
  }

  /** Only gate operations and completions move the gate, only completions of `w` itself
      while `w` runs. */
  lemma HistoryMoves(s: Sys, l: Label, w: WorkId)
    requires OneActive(s) && Enabled(s, l) && w < |s.works| && s.works[w].phase.Running?
    requires !(l.Complete? && l.w == w)
    ensures Apply(s, l).gated == s.gated
    ensures Apply(s, l).history == if l.GateOp? then G.Step(s.history, l.op) else s.history
    ensures w < |Apply(s, l).works| && Apply(s, l).works[w].context == s.works[w].context
  {
    hide FirstAnswer, Invalidate, G.Step, G.Enabled, Bind, G.Gate.Classify;
    StepGrows(s, l);
  }

  lemma ShutStays(s: Sys, l: Label, w: WorkId)
    requires Inv(s) && Enabled(s, l) && Shut(s, w)
    ensures ActiveInRange(s) && Shut(Apply(s, l), w)
  {
    hide CallsInv, CompleteWork, Enter, Finish, Invalidate, G.Step, G.Enabled, G.Inv, G.Accounted, Viable;
    hide G.Gate.Classify;
    if l.Complete? && l.w == w {
      var x := s.works[w].context;
      if Unprotected(s, w) {
        if s.history.gate.Classify(x.turn, x.generation).accepted { AcceptedIsViable(s.history, x); }
        RefusedCompletion(s, w, l.audio);
      } else {
        CompleteBinds(s, w, l.audio);
      }
    } else {
      WorkMoves(s, l, w);
      StepGrowsStore(s, l);
      if s.works[w].phase.Running? {
        HistoryMoves(s, l, w);
        if s.cancelRequested == Some(w) { RequestStays(s, l, w); }
        if l.GateOp? { ViableForward(s.history, l.op, s.works[w].context); }
      }
    }
  }

  lemma {:induction false} ShutLeads(s: Sys, labels: seq<Label>, s': Sys, w: WorkId)
    requires Inv(s) && Shut(s, w) && Leads(s, labels, s')
    ensures Shut(s', w)
    decreases |labels|
  {
    hide Inv, Apply, Enabled, Shut;
    if labels != [] {
      StepKeepsInv(s, labels[0]);
      ShutStays(s, labels[0], w);
      ShutLeads(Apply(s, labels[0]), labels[1..], s', w);
    }
  }

  lemma {:induction false} ShutForTheRest(gated: bool, labels: seq<Label>, n: nat, w: WorkId)
    requires Legal(gated, labels) && n <= |labels| && Shut(Run(gated, labels[..n]), w)
    ensures Shut(Run(gated, labels), w)
    decreases |labels|
  {
    hide Inv, Apply, Enabled, Shut;
    if n == |labels| {
      assert labels[..n] == labels;
    } else {
      var init := labels[..|labels| - 1];
      assert init[..n] == labels[..n];
      ShutForTheRest(gated, init, n, w);
      RunHasInv(gated, init);
      ShutStays(Run(gated, init), labels[|labels| - 1], w);
    }
  }

  // The other half: how an unprotected work comes to be opened.

  lemma LeadsCons(s: Sys, l: Label, rest: seq<Label>, s': Sys)
    requires ActiveInRange(s) && Enabled(s, l) && Leads(Apply(s, l), rest, s')
    ensures Leads(s, [l] + rest, s')
  {
    assert ([l] + rest)[1..] == rest;
  }

  lemma {:induction false} LeadsConcat(s: Sys, a: seq<Label>, m: Sys, b: seq<Label>, s': Sys)
    requires Leads(s, a, m) && Leads(m, b, s')
    ensures Leads(s, a + b, s')
    decreases |a|
  {
    hide Apply, Enabled;
    if a == [] {
      assert a + b == b;
    } else {
      LeadsConcat(Apply(s, a[0]), a[1..], m, b, s');
      assert (a + b)[0] == a[0] && (a + b)[1..] == a[1..] + b;
    }
  }

  lemma FreshNumber(used: set<nat>) returns (n: nat)
    ensures n !in used && forall x :: x in used ==> x < n
    decreases |used|
  {
    if used == {} {
      n := 0;
    } else {
      var x :| x in used;
      var m := FreshNumber(used - {x});
      n := if x < m then m else x + 1;
      forall y | y in used ensures y < n {
        if y != x { assert y in used - {x}; }
      }
    }
  }

  /** A start binds the reserved identity, or the new one when nothing is reserved. */
  lemma StartOwns(h: G.History, turn: G.TurnId, newId: G.GenerationId)
    ensures var h' := G.Step(h, G.StartOp(turn, newId));
            && h'.gate.active == Some(G.Active(turn, if h.gate.pending.Some? then h.gate.pending.value else newId))
            && h'.gate.pending.None?
            && h'.issued == if h.gate.pending.Some? then h.issued else h.issued + {newId}
  {
  }

  /** The gate can be brought to own a viable generation, by starting turns. */
  lemma ComesToOwn(s: Sys, x: Context) returns (labels: seq<Label>, s': Sys)
    requires Inv(s) && Viable(s.history, x)
    ensures Leads(s, labels, s') && s' == s.(history := s'.history)
    ensures s'.history.gate.active == Some(G.Active(x.turn, x.generation))
  {
    hide G.Inv, G.Accounted, CallsInv, ProducedIsBound, G.Step;
    ActiveExists(s);
    var h := s.history;
    if G.StageOf(h, x.generation) == G.IsActive(x.turn) {
      labels, s' := [], s;
    } else {
      var other := FreshNumber(h.issued + {x.generation});
      var id := if h.gate.pending == Some(x.generation) then other else x.generation;
      if h.gate.pending.Some? && h.gate.pending.value != x.generation {
        StartOwns(h, x.turn, other);
        var s1 := Apply(s, GateOp(G.StartOp(x.turn, other)));
        StartOwns(s1.history, x.turn, id);
        s' := Apply(s1, GateOp(G.StartOp(x.turn, id)));
        assert Leads(s', [], s');
        LeadsCons(s1, GateOp(G.StartOp(x.turn, id)), [], s');
        LeadsCons(s, GateOp(G.StartOp(x.turn, other)), [GateOp(G.StartOp(x.turn, id))] + [], s');
        labels := [GateOp(G.StartOp(x.turn, other))] + ([GateOp(G.StartOp(x.turn, id))] + []);
      } else {
        StartOwns(h, x.turn, id);
        s' := Apply(s, GateOp(G.StartOp(x.turn, id)));
        assert Leads(s', [], s');
        LeadsCons(s, GateOp(G.StartOp(x.turn, id)), [], s');
        labels := [GateOp(G.StartOp(x.turn, id))] + [];
      }
    }
  }

  /** Unprotected work whose generation the gate, if any, owns: a provider that stores an
      artifact and completes leaves it playable. */
  lemma UnprotectedDelivers(s: Sys, w: WorkId, a: ArtifactId)
    requires OneActive(s) && Unprotected(s, w) && a !in s.store
    requires var x := s.works[w].context;
             s.gated ==> G.Inv(s.history) && s.history.gate.active == Some(G.Active(x.turn, x.generation))
    ensures ActiveInRange(s) && Enabled(s, NewArtifact(a))
    ensures var s1 := Apply(s, NewArtifact(a));
            && ActiveInRange(s1) && Enabled(s1, Complete(w, Audio(false, Some(a))))
            && var s2 := Apply(s1, Complete(w, Audio(false, Some(a))));
               && HandsOver(s2, w)
               && w < |s2.works| && Playable(s2.store, s2.works[w].produced)
  {
    hide G.Inv, G.Accounted, G.Step, G.Gate.Classify;
    var x := s.works[w].context;
    if s.gated { AcceptedIffActive(s.history, x.turn, x.generation); }
  }

  lemma UnprotectedCanBeOpened(s: Sys, w: WorkId)
    requires Inv(s) && Unprotected(s, w) && MayOwn(s, w)
    ensures CanBeOpened(s, w)
  {
    hide Inv, Apply, Enabled, Viable, HandsOver, Playable, Leads, G.Inv, G.Accounted;
    var x := s.works[w].context;
    var first: seq<Label>, m := [], s;
    LeadsNowhere(s);
    if s.gated { first, m := ComesToOwn(s, x); }
    LeadsKeepsInv(s, first, m);
    InvParts(m);
    var a := FreshNumber(m.store.Keys);
    UnprotectedDelivers(m, w, a);
    var m1 := Apply(m, NewArtifact(a));
    var m2 := Apply(m1, Complete(w, Audio(false, Some(a))));
    LeadsNowhere(m2);
    LeadsCons(m1, Complete(w, Audio(false, Some(a))), [], m2);
    LeadsCons(m, NewArtifact(a), [Complete(w, Audio(false, Some(a)))] + [], m2);
    LeadsConcat(s, first, m, [NewArtifact(a)] + ([Complete(w, Audio(false, Some(a)))] + []), m2);
  }

  lemma LeadsNowhere(s: Sys)
    ensures Leads(s, [], s)
  {
  }

  lemma InvParts(s: Sys)
    requires Inv(s)
    ensures OneActive(s) && G.Inv(s.history) && G.Accounted(s.history)
  {
    hide CallsInv, ProducedIsBound, G.Inv, G.Accounted;
  }

  lemma {:induction false} LeadsKeepsInv(s: Sys, labels: seq<Label>, s': Sys)
    requires Inv(s) && Leads(s, labels, s')
    ensures Inv(s')
    decreases |labels|
  {
    hide Inv, Apply, Enabled;
    if labels != [] {
      StepKeepsInv(s, labels[0]);
      LeadsKeepsInv(Apply(s, labels[0]), labels[1..], s');
    }
  }

  /** Exactly when an artifact of a work can ever be opened from here on: it is playable now,
      or the work still runs with no cancel noted and the gate, if there is one, owns or can
      still come to own the work's generation in the work's turn. */
  lemma CanBeOpenedIff(s: Sys, w: WorkId)
    requires Inv(s) && w < |s.works|
    ensures CanBeOpened(s, w)
            <==> Playable(s.store, s.works[w].produced) || (Unprotected(s, w) && MayOwn(s, w))
    ensures CanBeOpened(s, w) <==> !Shut(s, w)
  {
    hide Inv, Apply, Enabled, Viable, Leads, Playable, MayOwn;
    LeadsNowhere(s);
    if Shut(s, w) {
      forall labels, s' | Leads(s, labels, s') ensures w < |s'.works| && !Playable(s'.store, s'.works[w].produced) {
        ShutLeads(s, labels, s', w);
      }
    } else if Unprotected(s, w) && MayOwn(s, w) {
      UnprotectedCanBeOpened(s, w);
    } else {
      assert Leads(s, [], s) && Playable(s.store, s.works[w].produced);
    }
  }

  // ------------------------------------------------------------------- flush

  /** Where a `flush` that saw work `w` active stands. */
  ghost predicate FlushSafe(s: Sys, call: Call) {
    call.flush.Some? ==>
      var w := call.flush.value;
      match call.stage
      case Seen => true
      case SignalMissing => true
      case Waiting(v, _) => v == w
      case Waited(v, _) => v == w
      case Answered(r) => r.outcome.AlreadyClosed? || (r.suppressed && r.work == Some(w)) || IsDone(s, w)
      case Flushed(r) => r.outcome.AlreadyClosed? || Dead(s, w)
  }

  ghost predicate FlushesSafe(s: Sys) {
    forall c :: 0 <= c < |s.calls| ==> FlushSafe(s, s.calls[c])
  }

  lemma FlushStays(s: Sys, l: Label, call: Call)
    requires Inv(s) && Enabled(s, l) && StageInv(s, call) && FlushSafe(s, call)
    ensures FlushSafe(Apply(s, l), call)
  {
    hide Inv, Apply, Enabled, Dead, Honest, OneActive;
    InvGivesRange(s);
    StepGrows(s, l);
    if call.flush.Some? && call.stage.Flushed? && Dead(s, call.flush.value) {
      DeadStays(s, l, call.flush.value);
    }
  }

  /** The cancel inside a flush answers without a barrier only when the stage is closed or
      the work has been released since the snapshot. */
  lemma FlushCancelIsSafe(s: Sys, c: nat)
    requires OneActive(s) && CallsInv(s) && Enabled(s, FlushCancels(c))
    ensures FlushSafe(Apply(s, FlushCancels(c)), Apply(s, FlushCancels(c)).calls[c])
  {
    hide StageInv, Invalidate;
    var w := s.calls[c].flush.value;
    assert Apply(s, FlushCancels(c)).calls[c] == Call(Some(w), Enter(s, s.works[w].context, Some(w)).1);
  }

  lemma FlushInvalidateIsSafe(s: Sys, c: nat)
    requires Inv(s) && Enabled(s, FlushInvalidates(c)) && FlushSafe(s, s.calls[c])
    requires Claims(s, s.calls[c].flush.value) ==> Dead(s, s.calls[c].flush.value)
    ensures ActiveInRange(s)
    ensures FlushSafe(Apply(s, FlushInvalidates(c)), Apply(s, FlushInvalidates(c)).calls[c])
  {
    hide CallsInv, GateInv, Claims;
    var w := s.calls[c].flush.value;
    if CallClaims(s.calls[c], w) {
      OldClaim(s, c, w);
      DeadStays(s, FlushInvalidates(c), w);
    }
    assert WorkIsBound(s.store, s.works[w]);
  }

  lemma FinishIsSafe(s: Sys, c: nat)
    requires OneActive(s) && CallsInv(s) && Enabled(s, CancelFinish(c)) && FlushSafe(s, s.calls[c])
    ensures FlushSafe(Apply(s, CancelFinish(c)), Apply(s, CancelFinish(c)).calls[c])
  {
    hide StageInv;
  }

  /** A call standing still in the step, or the one that moves. */
  lemma FlushAfterStep(s: Sys, l: Label, c: nat)
    requires Inv(s) && Enabled(s, l) && FlushesSafe(s) && ActiveInRange(s)
    requires forall w :: Claims(s, w) ==> Dead(s, w)
    requires c < |Apply(s, l).calls|
    ensures FlushSafe(Apply(s, l), Apply(s, l).calls[c])
  {
    hide OneActive, Claims, Dead, FlushSafe, FirstAnswer, CompleteWork, Invalidate, ProducedIsBound, GateInv;
    hide StageInv, Honest, G.Step, G.Enabled;
    var s' := Apply(s, l);
    if c < |s.calls| && s'.calls[c] == s.calls[c] {
      FlushStays(s, l, s.calls[c]);
    } else {
      match l
      case CancelEnter(_, _) => LoneCallIsSafe(s', c);
      case FlushSees => SeenIsSafe(s', c);
      case WaitEnds(k, completed) => WaitedIsSafe(s, s', c, completed);
      case CancelFinish(k) => FinishIsSafe(s, k);
      case FlushCancels(k) => FlushCancelIsSafe(s, k);
      case FlushInvalidates(k) => FlushInvalidateIsSafe(s, k);
      case Complete(v, audio) => CompleteLeavesTheCalls(s, v, audio); assert false;
      case _ => assert false;
    }
  }

  lemma LoneCallIsSafe(s: Sys, c: nat)
    requires c < |s.calls| && s.calls[c].flush.None?
    ensures FlushSafe(s, s.calls[c])
  {
  }

  lemma SeenIsSafe(s: Sys, c: nat)
    requires c < |s.calls| && s.calls[c].stage.Seen?
    ensures FlushSafe(s, s.calls[c])
  {
  }

  lemma WaitedIsSafe(s: Sys, s': Sys, c: nat, completed: bool)
    requires c < |s.calls| && s.calls[c].stage.Waiting? && FlushSafe(s, s.calls[c]) && c < |s'.calls|
    requires s'.calls[c] == s.calls[c].(stage := Waited(s.calls[c].stage.work, completed))
    ensures FlushSafe(s', s'.calls[c])
  {
  }

  /** In every run, once a flush that saw a work active has returned, no artifact that work
      produced or will produce can be opened, unless the cancel inside found the stage
      closed. */
  lemma {:induction false} FlushesAreSafe(gated: bool, labels: seq<Label>)
    requires Legal(gated, labels)
    ensures FlushesSafe(Run(gated, labels))
    decreases |labels|
  {
    hide Inv, Apply, Enabled, ActiveInRange, Claims, Dead, FlushSafe;
    if labels != [] {
      var init := labels[..|labels| - 1];
      var s, l := Run(gated, init), labels[|labels| - 1];
      FlushesAreSafe(gated, init);
      RunHasInv(gated, init);
      forall w | Claims(s, w) ensures Dead(s, w) {
        var n := EveryClaimHasABarrier(gated, init, w);
        VerdictOfABarrier(gated, init, n, w);
      }
      forall c | 0 <= c < |Apply(s, l).calls| ensures FlushSafe(Apply(s, l), Apply(s, l).calls[c]) {
        FlushAfterStep(s, l, c);
      }
    }
  }

  /** A flush that saw work `w` active and has returned, other than from a closed stage,
      leaves no FW artifact of `w` to be opened, now or later. */
  lemma FlushIsAirtight(gated: bool, labels: seq<Label>, c: nat, w: WorkId)
    requires Legal(gated, labels) && c < |Run(gated, labels).calls|
    requires Run(gated, labels).calls[c].flush == Some(w) && Run(gated, labels).calls[c].stage.Flushed?
    ensures Run(gated, labels).calls[c].stage.result.outcome.AlreadyClosed? || Dead(Run(gated, labels), w)
  {
    hide Dead, Run, Legal;
    FlushesAreSafe(gated, labels);
    assert FlushSafe(Run(gated, labels), Run(gated, labels).calls[c]);
  }

  lemma FlushStepIff(s: Sys, c: nat)
    requires Inv(s) && Enabled(s, FlushInvalidates(c)) && FlushSafe(s, s.calls[c])
    requires Claims(s, s.calls[c].flush.value) ==> Dead(s, s.calls[c].flush.value)
    ensures ActiveInRange(s)
    ensures var w := s.calls[c].flush.value;
            var s' := Apply(s, FlushInvalidates(c));
            && w < |s'.works| && !Playable(s'.store, s'.works[w].produced)
            && s'.works[w] == s.works[w] && s'.cancelRequested == s.cancelRequested
            && s'.gated == s.gated && s'.history == s.history
            && (!Unprotected(s, w) ==> Dead(s', w))
            && (Unprotected(s, w) ==> s.calls[c].stage.result.outcome.AlreadyClosed?)
  {
    hide CallsInv, GateInv, Claims, StageInv;
    var w := s.calls[c].flush.value;
    assert WorkIsBound(s.store, s.works[w]);
    if CallClaims(s.calls[c], w) { OldClaim(s, c, w); }
  }

  /** What a flush is worth, exactly. After its last step an artifact of the work it saw can
      still be opened in some continuation if and only if the work then runs with no cancel
      noted and the stage has no gate or the gate can still come to own the work's generation
      and turn; that the work is so unprotected happens only if the cancel inside found the
      stage closed. Otherwise its artifacts stay shut for the rest of every run. */
  lemma FlushVerdict(gated: bool, labels: seq<Label>, n: nat, c: nat, w: WorkId)
    requires Legal(gated, labels) && n < |labels| && labels[n] == FlushInvalidates(c)
    requires c < |Run(gated, labels[..n]).calls| && Run(gated, labels[..n]).calls[c].flush == Some(w)
    ensures CanBeOpened(Run(gated, labels[..n + 1]), w)
            <==> Unprotected(Run(gated, labels[..n]), w) && MayOwn(Run(gated, labels[..n]), w)
    ensures !CanBeOpened(Run(gated, labels[..n + 1]), w) ==>
              var s := Run(gated, labels);
              w < |s.works| && !Playable(s.store, s.works[w].produced)
    ensures !Unprotected(Run(gated, labels[..n]), w) ==> Dead(Run(gated, labels), w)
    ensures Unprotected(Run(gated, labels[..n]), w) ==>
              var stage := Run(gated, labels[..n]).calls[c].stage;
              stage.Answered? && stage.result.outcome.AlreadyClosed?
  {
    hide Inv, Apply, Dead, Claims, FlushSafe, Run, Legal, CanBeOpened, Shut;
    var s := Run(gated, labels[..n]);
    PrefixIsLegal(gated, labels, n);
    RunHasInv(gated, labels[..n]);
    FlushesAreSafe(gated, labels[..n]);
    if Claims(s, w) {
      var m := EveryClaimHasABarrier(gated, labels[..n], w);
      VerdictOfABarrier(gated, labels[..n], m, w);
    }
    FlushStepIff(s, c);
    StepKeepsInv(s, labels[n]);
    CanBeOpenedIff(Run(gated, labels[..n + 1]), w);
    if !Unprotected(s, w) { DeadForTheRest(gated, labels, n + 1, w); }
    if !CanBeOpened(Run(gated, labels[..n + 1]), w) {
      ShutForTheRest(gated, labels, n + 1, w);
      ShutIsUnplayable(Run(gated, labels), w);
    }
  }

  lemma {:induction false} PrefixIsLegal(gated: bool, labels: seq<Label>, n: nat)
    requires Legal(gated, labels) && n < |labels|
    ensures Legal(gated, labels[..n]) && Enabled(Run(gated, labels[..n]), labels[n])
    ensures ActiveInRange(Run(gated, labels[..n]))
    ensures Run(gated, labels[..n + 1]) == Apply(Run(gated, labels[..n]), labels[n])
    decreases |labels|
  {
    hide Inv, Apply, Enabled;
    var init := labels[..|labels| - 1];
    if n == |labels| - 1 {
      assert labels[..n + 1] == labels;
      RunHasInv(gated, init);
    } else {
      assert init[..n] == labels[..n] && init[..n + 1] == labels[..n + 1];
      PrefixIsLegal(gated, init, n);
    }
  }

  lemma {:induction false} DeadForTheRest(gated: bool, labels: seq<Label>, n: nat, w: WorkId)
    requires Legal(gated, labels) && n <= |labels| && Dead(Run(gated, labels[..n]), w)
    ensures Dead(Run(gated, labels), w)
    decreases |labels|
  {
    hide Inv, Apply, Enabled, Dead;
    if n == |labels| {
      assert labels[..n] == labels;
    } else {
      var init := labels[..|labels| - 1];
      assert init[..n] == labels[..n];
      DeadForTheRest(gated, init, n, w);
      RunHasInv(gated, init);
      DeadStays(Run(gated, init), labels[|labels| - 1], w);
    }
  }

  // --------------------------------------------------------------- witnesses

  lemma Extend(gated: bool, labels: seq<Label>, l: Label, s: Sys) returns (more: seq<Label>)
    requires Legal(gated, labels) && Enabled(Run(gated, labels), l)
    requires ActiveInRange(Run(gated, labels)) && s == Apply(Run(gated, labels), l)
    ensures more == labels + [l] && Legal(gated, more) && Run(gated, more) == s
  {
    hide Enabled, Apply, ActiveInRange;
    more := labels + [l];
    assert more[..|more| - 1] == labels;
  }

  /** A stage with one active work in the given phase. */
  function OneWork(x: Context, phase: Phase): Sys {
    InitialSys(false).(works := [Work(x, phase, None)], active := Some(0), activeDone := Some(0))
  }

  lemma Claimed(x: Context) returns (labels: seq<Label>)
    ensures Legal(false, labels) && Run(false, labels) == OneWork(x, Running)
  {
    var none: seq<Label> := [];
    labels := Extend(false, none, Claim(x), OneWork(x, Running));
  }

  /** The cancel that comes between the completion section and the release: it reports
      COMPLETED and suppressed, and the worker returns its audio all the same. */
  lemma CancelInTheWindow(x: Context) returns (labels: seq<Label>)
    ensures Legal(false, labels)
    ensures Run(false, labels).calls == [Call(None, Answered(Result(CancelCompleted, x, Some(0), true)))]
    ensures Run(false, labels).works == [Work(x, Returned(Delivered(Audio(true, None))), None)]
  {
    hide Run, Legal;
    var audio := Delivered(Audio(true, None));
    var l1 := Claimed(x);
    var s2 := OneWork(x, Completed(audio));
    var l2 := Extend(false, l1, Complete(0, Audio(true, None)), s2);
    var s3 := s2.(cancelRequested := Some(0), calls := [Call(None, Waiting(0, 0))]);
    assert Invalidate(s2.store, x.generation) == s2.store;
    var l3 := Extend(false, l2, CancelEnter(x, None), s3);
    var s4 := s3.(works := [Work(x, Returned(audio), None)], active := None);
    var l4 := Extend(false, l3, Release(0), s4);
    var s5 := s4.(calls := [Call(None, Waited(0, true))]);
    var l5 := Extend(false, l4, WaitEnds(0, true), s5);
    var r := Result(CancelCompleted, x, Some(0), true);
    labels := Extend(false, l5, CancelFinish(0),
                     s5.(calls := [Call(None, Answered(r))], lastCancelWork := Some(0), lastCancelResult := Some(r)));
  }

  /** The exception FlushIsAirtight makes is real: with the stage closed between the
      snapshot and the cancel, the provider stores its artifact after the flush, and the
      work completes with it, playable. */
  lemma FlushOnAClosedStage(x: Context) returns (labels: seq<Label>)
    ensures Legal(false, labels)
    ensures Run(false, labels).calls == [Call(Some(0), Flushed(Result(AlreadyClosed, x, Some(0), false)))]
    ensures Run(false, labels).works == [Work(x, Completed(Delivered(Audio(false, Some(7)))), Some(7))]
    ensures !Dead(Run(false, labels), 0)
  {
    hide Run, Legal;
    var l5 := FlushedClosed(x);
    var s5 := Run(false, l5);
    var s6 := s5.(store := map[7 := Artifact(None, true)]);
    var l6 := Extend(false, l5, NewArtifact(7), s6);
    labels := Extend(false, l6, Complete(0, Audio(false, Some(7))),
                     s6.(store := map[7 := Artifact(Some(x.generation), true)],
                         works := [Work(x, Completed(Delivered(Audio(false, Some(7)))), Some(7))]));
  }

  lemma FlushedClosed(x: Context) returns (labels: seq<Label>)
    ensures Legal(false, labels)
    ensures Run(false, labels)
            == OneWork(x, Running).(closed := true,
                                    calls := [Call(Some(0), Flushed(Result(AlreadyClosed, x, Some(0), false)))])
  {
    hide Run, Legal;
    var r := Result(AlreadyClosed, x, Some(0), false);
    var s := OneWork(x, Running).(closed := true);
    var l3 := SeenThenClosed(x);
    var l4 := Extend(false, l3, FlushCancels(0), s.(calls := [Call(Some(0), Answered(r))]));
    assert Invalidate(s.store, x.generation) == s.store;
    labels := Extend(false, l4, FlushInvalidates(0), s.(calls := [Call(Some(0), Flushed(r))]));
  }

  lemma SeenThenClosed(x: Context) returns (labels: seq<Label>)
    ensures Legal(false, labels)
    ensures Run(false, labels) == OneWork(x, Running).(closed := true, calls := [Call(Some(0), Seen)])
  {
    hide Run, Legal, Enter, Finish, CompleteWork;
    var l1 := Claimed(x);
    var s1 := OneWork(x, Running).(calls := [Call(Some(0), Seen)]);
    var l2 := Extend(false, l1, FlushSees, s1);
    labels := Extend(false, l2, CloseStage, s1.(closed := true));
  }

  /** What no flush takes back: a URL of the provider's own, handed over by a work that had
      completed before the cancel inside, on an open stage. */
  lemma FlushLeavesTheUrl(x: Context) returns (labels: seq<Label>)
    ensures Legal(false, labels)
    ensures Run(false, labels).calls == [Call(Some(0), Flushed(Result(CancelCompleted, x, Some(0), true)))]
    ensures Run(false, labels).works == [Work(x, Returned(Delivered(Audio(true, None))), None)]
  {
    hide Run, Legal;
    var audio := Delivered(Audio(true, None));
    var r := Result(CancelCompleted, x, Some(0), true);
    var l4 := FlushEntersLate(x);
    var s4 := Run(false, l4);
    var s5 := s4.(works := [Work(x, Returned(audio), None)], active := None);
    var l5 := Extend(false, l4, Release(0), s5);
    var l6 := Extend(false, l5, WaitEnds(0, true), s5.(calls := [Call(Some(0), Waited(0, true))]));
    var s7 := s5.(calls := [Call(Some(0), Answered(r))], lastCancelWork := Some(0), lastCancelResult := Some(r));
    var l7 := Extend(false, l6, CancelFinish(0), s7);
    assert Invalidate(s7.store, x.generation) == s7.store;
    labels := Extend(false, l7, FlushInvalidates(0), s7.(calls := [Call(Some(0), Flushed(r))]));
  }

  lemma FlushEntersLate(x: Context) returns (labels: seq<Label>)
    ensures Legal(false, labels)
    ensures Run(false, labels)
            == OneWork(x, Completed(Delivered(Audio(true, None))))
               .(cancelRequested := Some(0), calls := [Call(Some(0), Waiting(0, 0))])
  {
    hide Run, Legal;
    var l1 := Claimed(x);
    var s2 := OneWork(x, Running).(calls := [Call(Some(0), Seen)]);
    var l2 := Extend(false, l1, FlushSees, s2);
    var s3 := OneWork(x, Completed(Delivered(Audio(true, None)))).(calls := [Call(Some(0), Seen)]);
    var l3 := Extend(false, l2, Complete(0, Audio(true, None)), s3);
    assert Invalidate(s3.store, x.generation) == s3.store;
    labels := Extend(false, l3, FlushCancels(0),
                     s3.(cancelRequested := Some(0), calls := [Call(Some(0), Waiting(0, 0))]));
  }
}
