/** What `cancel` answers (framework/_realtime_voice_output_control.py:388-487), read off the
    run instead of off the stage's fields: which report of an earlier cancel still stands, and
    which of the five outcomes a first section gives. Nothing here is stated through
    `lastCancelResult`, `FirstAnswer` or `Finish`. */
module VoiceCancelAnswers {
  import opened Common
  import opened VoiceCancel
  import G = GenerationGate

  /** Step `k` is the second section of a cancel that waited on work `w`. */
  ghost predicate FinishesOn(gated: bool, labels: seq<Label>, k: nat, w: WorkId) {
    && k < |labels| && labels[k].CancelFinish?
    && labels[k].c < |Run(gated, labels[..k]).calls|
    && Run(gated, labels[..k]).calls[labels[k].c].stage.Waited?
    && Run(gated, labels[..k]).calls[labels[k].c].stage.work == w
  }

  /** Step `i` reported `r` to its caller. */
  ghost predicate Reports(gated: bool, labels: seq<Label>, i: nat, r: Result) {
    && i < |labels| && labels[i].CancelFinish?
    && labels[i].c < |Run(gated, labels[..i + 1]).calls|
    && Run(gated, labels[..i + 1]).calls[labels[i].c].stage == Answered(r)
  }

  /** The report `r` of step `i` still stands: since then no work was claimed, and no cancel
      of another work has reported. */
  ghost predicate StandsSince(gated: bool, labels: seq<Label>, i: nat, r: Result) {
    && Reports(gated, labels, i, r) && r.work.Some?
    && |Run(gated, labels).works| == |Run(gated, labels[..i]).works|
    && forall k :: i < k < |labels| && labels[k].CancelFinish? ==> FinishesOn(gated, labels, k, r.work.value)
  }

  ghost predicate Stands(gated: bool, labels: seq<Label>, r: Result) {
    exists i :: StandsSince(gated, labels, i, r)
  }

  // ----------------------------------------------------------- what is remembered

  /** The last answer of the step, exactly: a report about a work is the remembered one if
      that is about the same work, else a new one that suppresses. */
  lemma FinishRemembers(s: Sys, c: nat)
    requires OneActive(s) && CallsInv(s) && Enabled(s, CancelFinish(c)) && ActiveInRange(s)
    ensures var s' := Apply(s, CancelFinish(c));
            var w, completed := s.calls[c].stage.work, s.calls[c].stage.completed;
            var known := s.lastCancelResult.Some? && s.lastCancelResult.value.work == Some(w);
            && |s'.calls| == |s.calls| && s'.works == s.works
            && s'.calls[c].stage.Answered? && s'.lastCancelResult == Some(s'.calls[c].stage.result)
            && s'.calls[c].stage.result.work == Some(w)
            && (known ==> s'.lastCancelResult == s.lastCancelResult)
            && (!known ==> s'.calls[c].stage.result
                           == Result(if completed then CancelCompleted else TimedOut,
                                     s.works[w].context, Some(w), true))
  {
    hide StageInv;
  }

  lemma OthersRemember(s: Sys, l: Label)
    requires ActiveInRange(s) && Enabled(s, l) && !l.CancelFinish?
    ensures |s.works| <= |Apply(s, l).works|
    ensures Apply(s, l).lastCancelResult
            == if |Apply(s, l).works| == |s.works| then s.lastCancelResult else None
  {
    hide G.Enabled, CompleteWork, Enter, Invalidate, G.Step;
    match l
    case Complete(w, audio) => CompleteForgetsNothing(s, w, audio);
    case CancelEnter(x, asked) => EnterForgetsNothing(s, x, asked);
    case FlushCancels(c) =>
      var w := s.calls[c].flush.value;
      EnterForgetsNothing(s, s.works[w].context, Some(w));
    case _ =>
  }

  lemma CompleteForgetsNothing(s: Sys, w: WorkId, audio: Audio)
    requires w < |s.works|
    ensures var s' := CompleteWork(s, w, audio);
            |s'.works| == |s.works| && s'.lastCancelResult == s.lastCancelResult
  {
    hide Bind, Invalidate, G.Step, G.Gate.Classify;
  }

  lemma EnterForgetsNothing(s: Sys, x: Context, asked: Option<WorkId>)
    requires ActiveInRange(s)
    ensures var (s', _) := Enter(s, x, asked);
            s'.works == s.works && s'.lastCancelResult == s.lastCancelResult && s'.calls == s.calls
  {
    hide FirstAnswer, Invalidate;
  }

  lemma StepOf(gated: bool, labels: seq<Label>)
    requires Legal(gated, labels) && labels != []
    ensures var s := Run(gated, labels[..|labels| - 1]);
            var l := labels[|labels| - 1];
            && Legal(gated, labels[..|labels| - 1]) && ActiveInRange(s) && Enabled(s, l) && Inv(s)
            && OneActive(s) && CallsInv(s) && Run(gated, labels) == Apply(s, l)
  {
    hide Inv, Apply, Enabled, ActiveInRange, OneActive, CallsInv;
    RunHasInv(gated, labels[..|labels| - 1]);
    InvGivesRange(Run(gated, labels[..|labels| - 1]));
  }

  lemma {:induction false} WorksGrow(gated: bool, labels: seq<Label>, i: nat)
    requires Legal(gated, labels) && i <= |labels|
    ensures |Run(gated, labels[..i]).works| <= |Run(gated, labels).works|
    decreases |labels|
  {
    hide Inv, Apply, Enabled, ActiveInRange, OneActive, CallsInv, Grows, Run, Legal;
    if i == |labels| {
      assert labels[..i] == labels;
    } else {
      var init := labels[..|labels| - 1];
      StepOf(gated, labels);
      assert init[..i] == labels[..i];
      WorksGrow(gated, init, i);
      var s, l := Run(gated, init), labels[|labels| - 1];
      if l.CancelFinish? { FinishRemembers(s, l.c); } else { OthersRemember(s, l); }
    }
  }

  lemma StandsBefore(gated: bool, labels: seq<Label>, i: nat, r: Result)
    requires Legal(gated, labels) && StandsSince(gated, labels, i, r) && i < |labels| - 1
    ensures StandsSince(gated, labels[..|labels| - 1], i, r)
  {
    hide Inv, Apply, Enabled, ActiveInRange, OneActive, CallsInv, Run, Legal;
    var init := labels[..|labels| - 1];
    StepOf(gated, labels);
    assert init[..i] == labels[..i] && init[..i + 1] == labels[..i + 1];
    WorksGrow(gated, init, i);
    WorksGrow(gated, labels, |init|);
    forall k | i < k < |init| && init[k].CancelFinish? ensures FinishesOn(gated, init, k, r.work.value) {
      assert init[..k] == labels[..k];
      assert FinishesOn(gated, labels, k, r.work.value);
    }
  }

  lemma StandsAfter(gated: bool, labels: seq<Label>, i: nat, r: Result)
    requires Legal(gated, labels) && labels != [] && StandsSince(gated, labels[..|labels| - 1], i, r)
    requires |Run(gated, labels).works| == |Run(gated, labels[..|labels| - 1]).works|
    requires !labels[|labels| - 1].CancelFinish?
    ensures StandsSince(gated, labels, i, r)
  {
    hide Inv, Apply, Enabled, ActiveInRange, OneActive, CallsInv, Run, Legal;
    var init := labels[..|labels| - 1];
    assert init[..i] == labels[..i] && init[..i + 1] == labels[..i + 1];
    forall k | i < k < |labels| && labels[k].CancelFinish? ensures FinishesOn(gated, labels, k, r.work.value) {
      assert k < |init|;
      assert init[..k] == labels[..k];
      assert FinishesOn(gated, init, k, r.work.value);
    }
  }

  lemma {:induction false} StandingIsRemembered(gated: bool, labels: seq<Label>, i: nat, r: Result)
    requires Legal(gated, labels) && StandsSince(gated, labels, i, r)
    ensures Run(gated, labels).lastCancelResult == Some(r)
    decreases |labels|
  {
    hide Inv, Apply, Enabled, ActiveInRange, OneActive, CallsInv, Run, Legal;
    StepOf(gated, labels);
    var init := labels[..|labels| - 1];
    var s, l := Run(gated, init), labels[|labels| - 1];
    if i == |labels| - 1 {
      assert labels[..i + 1] == labels;
      WaitedBefore(s, l.c);
      FinishRemembers(s, l.c);
    } else {
      StandsBefore(gated, labels, i, r);
      StandingIsRemembered(gated, init, i, r);
      if l.CancelFinish? {
        assert FinishesOn(gated, labels, |labels| - 1, r.work.value);
        FinishRemembers(s, l.c);
      } else {
        OthersRemember(s, l);
        WorksGrow(gated, init, i);
        assert init[..i] == labels[..i];
      }
    }
  }

  lemma WaitedBefore(s: Sys, c: nat)
    requires Enabled(s, CancelFinish(c))
    ensures c < |s.calls| && s.calls[c].stage.Waited? && s.calls[c].stage.work < |s.works|
  {
  }

  lemma {:induction false} RememberedStands(gated: bool, labels: seq<Label>, r: Result) returns (i: nat)
    requires Legal(gated, labels) && Run(gated, labels).lastCancelResult == Some(r)
    ensures StandsSince(gated, labels, i, r)
    decreases |labels|
  {
    hide Inv, Apply, Enabled, ActiveInRange, OneActive, CallsInv, Legal;
    i := 0;
    if labels != [] {
      StepOf(gated, labels);
      hide Run;
      var init := labels[..|labels| - 1];
      var s, l := Run(gated, init), labels[|labels| - 1];
      if l.CancelFinish? {
        i := |labels| - 1;
        assert labels[..i + 1] == labels;
        WaitedBefore(s, l.c);
        FinishRemembers(s, l.c);
      } else {
        OthersRemember(s, l);
        i := RememberedStands(gated, init, r);
        StandsAfter(gated, labels, i, r);
      }
    }
  }

  /** The stage remembers a report exactly as long as it stands; so at most one does. */
  lemma StandsIff(gated: bool, labels: seq<Label>, r: Result)
    requires Legal(gated, labels)
    ensures Stands(gated, labels, r) <==> Run(gated, labels).lastCancelResult == Some(r)
  {
    hide Run, Legal, StandsSince;
    if Run(gated, labels).lastCancelResult == Some(r) {
      var i := RememberedStands(gated, labels, r);
    }
    if Stands(gated, labels, r) {
      var i :| StandsSince(gated, labels, i, r);
      StandingIsRemembered(gated, labels, i, r);
    }
  }

  lemma {:induction false} ClosedIff(gated: bool, labels: seq<Label>)
    requires Legal(gated, labels)
    ensures Run(gated, labels).closed <==> CloseStage in labels
    decreases |labels|
  {
    hide Inv, Enabled, ActiveInRange, OneActive, CallsInv, Legal, CompleteWork, Enter, Finish, Invalidate, G.Step;
    if labels != [] {
      var init := labels[..|labels| - 1];
      var s, l := Run(gated, init), labels[|labels| - 1];
      StepOf(gated, labels);
      ClosedIff(gated, init);
      assert labels == init + [l];
      StepCloses(s, l);
    }
  }

  lemma StepCloses(s: Sys, l: Label)
    requires Enabled(s, l) && ActiveInRange(s)
    ensures Apply(s, l).closed <==> s.closed || l == CloseStage
  {
    hide FirstAnswer, Invalidate, G.Step, G.Enabled, Bind, G.Gate.Classify;
  }

  // ------------------------------------------------------------------ the answers

  /** The stage of the call that a first section for context `x` and id `asked` begins. */
  ghost function EnteredStage(s: Sys, x: Context, asked: Option<WorkId>): Stage
    requires ActiveInRange(s)
  {
    var s' := Apply(s, CancelEnter(x, asked));
    if |s'.calls| == |s.calls| + 1 then s'.calls[|s.calls|].stage else SignalMissing
  }

  /** `asked` names no work, or this one. */
  predicate Names(asked: Option<WorkId>, w: Option<WorkId>) { asked.None? || asked == w }

  lemma EnteredIn(s: Sys, x: Context, asked: Option<WorkId>)
    requires OneActive(s) && CallsInv(s)
    ensures ActiveInRange(s)
    ensures var stage := EnteredStage(s, x, asked);
            var fits := s.active.Some? && s.works[s.active.value].context == x && Names(asked, s.active);
            && (s.closed <==> stage == Answered(Result(AlreadyClosed, x, asked, false)))
            && (!s.closed && s.active.Some? && !fits <==> stage == Answered(Result(WorkMismatch, x, asked, false)))
            && (!s.closed && s.active.None?
                && !(s.lastCancelResult.Some? && s.lastCancelResult.value.context == x
                     && Names(asked, s.lastCancelResult.value.work))
                <==> stage == Answered(Result(NoActiveGeneration, x, asked, false)))
            && (!s.closed && fits && !(s.lastCancelResult.Some? && s.lastCancelResult.value.work == s.active)
                <==> stage.Waiting?)
            && (stage.Waiting? ==> s.active == Some(stage.work) && stage.done == stage.work)
            && !stage.SignalMissing?
            && (stage.Answered? && stage.result.suppressed ==> s.lastCancelResult == Some(stage.result))
  {
    hide StageInv, Invalidate;
    ghost var s' := Apply(s, CancelEnter(x, asked));
    assert s'.calls == s.calls + [Call(None, Enter(s, x, asked).1)];
  }

  lemma EnteredCached(s: Sys, x: Context, asked: Option<WorkId>, r: Result)
    requires OneActive(s) && CallsInv(s) && s.lastCancelResult == Some(r)
    ensures ActiveInRange(s)
    ensures EnteredStage(s, x, asked) == Answered(r)
            <==> !s.closed && r.context == x && Names(asked, r.work) && (s.active.None? || s.active == r.work)
  {
    hide StageInv, Invalidate;
    ghost var s' := Apply(s, CancelEnter(x, asked));
    assert s'.calls == s.calls + [Call(None, Enter(s, x, asked).1)];
  }

  /** What a first section answers, exactly, in every reachable state: AlreadyClosed iff the
      stage was ever closed; on an open stage WorkMismatch iff a work is active that is not
      the one meant; NoActiveGeneration iff none is active and no standing report is about
      what was asked; and it waits iff the active work is meant and no report about it
      stands. */
  lemma CancelIsAnswered(gated: bool, labels: seq<Label>, x: Context, asked: Option<WorkId>)
    requires Legal(gated, labels)
    ensures ActiveInRange(Run(gated, labels))
    ensures var s := Run(gated, labels);
            var stage := EnteredStage(s, x, asked);
            var closed := CloseStage in labels;
            var fits := s.active.Some? && s.works[s.active.value].context == x && Names(asked, s.active);
            && (closed <==> stage == Answered(Result(AlreadyClosed, x, asked, false)))
            && (!closed && s.active.Some? && !fits <==> stage == Answered(Result(WorkMismatch, x, asked, false)))
            && (!closed && s.active.None?
                && !(exists r :: Stands(gated, labels, r) && r.context == x && Names(asked, r.work))
                <==> stage == Answered(Result(NoActiveGeneration, x, asked, false)))
            && (!closed && fits && !(exists r :: Stands(gated, labels, r) && r.work == s.active) <==> stage.Waiting?)
            && (stage.Waiting? ==> s.active == Some(stage.work) && stage.done == stage.work)
  {
    hide Run, Legal, Stands, OneActive, CallsInv, EnteredStage, Inv, ActiveInRange;
    var s := Run(gated, labels);
    RunHasInv(gated, labels);
    InvGivesRange(s);
    ClosedIff(gated, labels);
    EnteredIn(s, x, asked);
    if s.lastCancelResult.Some? { StandsIff(gated, labels, s.lastCancelResult.value); }
    forall r | Stands(gated, labels, r) ensures s.lastCancelResult == Some(r) {
      StandsIff(gated, labels, r);
    }
  }

  /** A repeated cancel, exactly: in every reachable state a first section answers with the
      report `r` of an earlier cancel if and only if `r` still stands, the stage is open, the
      context is the reported one, the id is the reported one or absent, and no other work
      is active. */
  lemma RepeatedCancel(gated: bool, labels: seq<Label>, x: Context, asked: Option<WorkId>, r: Result)
    requires Legal(gated, labels) && r.suppressed
    ensures ActiveInRange(Run(gated, labels))
    ensures EnteredStage(Run(gated, labels), x, asked) == Answered(r)
            <==> && Stands(gated, labels, r)
                 && CloseStage !in labels && r.context == x && Names(asked, r.work)
                 && (Run(gated, labels).active.None? || Run(gated, labels).active == r.work)
  {
    hide Run, Legal, Stands, OneActive, CallsInv, EnteredStage, Inv, ActiveInRange;
    var s := Run(gated, labels);
    RunHasInv(gated, labels);
    InvGivesRange(s);
    ClosedIff(gated, labels);
    EnteredIn(s, x, asked);
    StandsIff(gated, labels, r);
    if s.lastCancelResult == Some(r) { EnteredCached(s, x, asked, r); }
  }

  /** What a second section reports, exactly: the standing report about its work if there is
      one; otherwise a new report, COMPLETED iff its wait saw the work done, that suppresses,
      in the work's context. Either way it stands at once. */
  lemma ReportIsExact(gated: bool, labels: seq<Label>, c: nat)
    requires Legal(gated, labels) && Enabled(Run(gated, labels), CancelFinish(c))
    ensures ActiveInRange(Run(gated, labels))
    ensures var s := Run(gated, labels);
            var s' := Apply(s, CancelFinish(c));
            var w := s.calls[c].stage.work;
            && c < |s'.calls| && s'.calls[c].stage.Answered?
            && Stands(gated, labels + [CancelFinish(c)], s'.calls[c].stage.result)
            && s'.calls[c].stage.result.work == Some(w)
            && (forall r :: Stands(gated, labels, r) && r.work == Some(w) ==> s'.calls[c].stage.result == r)
            && ((forall r :: Stands(gated, labels, r) ==> r.work != Some(w)) ==>
                  && s'.calls[c].stage.result.context == s.works[w].context
                  && s'.calls[c].stage.result.suppressed
                  && s'.calls[c].stage.result.outcome
                     == if s.calls[c].stage.completed then CancelCompleted else TimedOut)
  {
    hide Run, Legal, Stands, OneActive, CallsInv, Inv;
    var s := Run(gated, labels);
    RunHasInv(gated, labels);
    InvGivesRange(s);
    WaitedBefore(s, c);
    FinishRemembers(s, c);
    var s' := Apply(s, CancelFinish(c));
    var more := Extend(gated, labels, CancelFinish(c), s');
    StandsIff(gated, more, s'.calls[c].stage.result);
    if s.lastCancelResult.Some? { StandsIff(gated, labels, s.lastCancelResult.value); }
    forall r | Stands(gated, labels, r) ensures s.lastCancelResult == Some(r) {
      StandsIff(gated, labels, r);
    }
  }

  // --------------------------------------------------- who is let in, what is shut

  /** A claim is taken if and only if the stage was never closed and no work is between its
      claim and its release; then the new work alone is active, with no cancel noted. */
  lemma ClaimIsTakenIff(gated: bool, labels: seq<Label>, x: Context)
    requires Legal(gated, labels)
    ensures ActiveInRange(Run(gated, labels))
    ensures var s := Run(gated, labels);
            var s' := Apply(s, Claim(x));
            var free := CloseStage !in labels && forall w :: 0 <= w < |s.works| ==> !Unreleased(s.works[w].phase);
            && (|s'.works| == |s.works| + 1 <==> free) && (s' == s <==> !free)
            && (free ==>
                  && s'.works == s.works + [Work(x, Running, None)]
                  && s'.active == Some(|s.works|) && Unprotected(s', |s.works|))
  {
    hide Run, Legal, CallsInv, ProducedIsBound, GateInv;
    RunHasInv(gated, labels);
    ClosedIff(gated, labels);
    var s := Run(gated, labels);
    assert s.active.Some? ==> Unreleased(s.works[s.active.value].phase);
    hide Inv;
    var s' := Apply(s, Claim(x));
    assert |s.works + [Work(x, Running, None)]| == |s.works| + 1;
    assert OneActive(s') by {
      StepGrows(s, Claim(x));
    }
    assert s'.cancelRequested == None || s' == s;
  }

  /** The generation whose artifacts the step shuts, if any: that of the work a cancel puts its
      barrier on, a flush has cancelled, an invalidation names, or a completion suppresses. */
  ghost function Shuts(s: Sys, l: Label): Option<G.GenerationId>
    requires Enabled(s, l) && ActiveInRange(s)
  {
    match l
    case CancelEnter(x, _) => if Apply(s, l).calls[|s.calls|].stage.Waiting? then Some(x.generation) else None
    case FlushCancels(c) =>
      if Apply(s, l).calls[c].stage.Waiting? then Some(s.works[s.calls[c].flush.value].context.generation) else None
    case FlushInvalidates(c) => Some(s.works[s.calls[c].flush.value].context.generation)
    case InvalidateCompleted(x) => Some(x.generation)
    case Complete(w, _) =>
      var e := EnvelopeOf(Apply(s, l).works[w].phase);
      if e.Some? && !e.value.Delivered? then Some(s.works[w].context.generation) else None
    case _ => None
  }

  /** Exactly which artifacts a step shuts: those of the generation it shuts, counting the one
      that a suppressed completion has just bound to it, and the one that is dropped. None is
      ever opened again, and only a completion binds one. */
  lemma ShutsExactly(s: Sys, l: Label, a: ArtifactId)
    requires Inv(s) && Enabled(s, l) && a in s.store
    ensures ActiveInRange(s) && a in Apply(s, l).store
    ensures var after := Apply(s, l).store[a];
            && (after.playable <==>
                  && s.store[a].playable && l != DropArtifact(a)
                  && (Shuts(s, l).None? || after.generation != Shuts(s, l)))
            && (after.generation != s.store[a].generation ==>
                  && l.Complete? && l.audio.artifact == Some(a) && s.store[a].generation.None?
                  && after.generation == Some(s.works[l.w].context.generation))
  {
    hide Inv, G.Step, G.Enabled, FirstAnswer, Invalidate, Bind, CompleteWork;
    InvGivesRange(s);
    match l
    case Complete(_, _) => CompletionShuts(s, l, a);
    case CancelEnter(x, _) => InvalidateShuts(s.store, x.generation, a);
    case FlushCancels(c) => InvalidateShuts(s.store, s.works[s.calls[c].flush.value].context.generation, a);
    case FlushInvalidates(c) => InvalidateShuts(s.store, s.works[s.calls[c].flush.value].context.generation, a);
    case InvalidateCompleted(x) => InvalidateShuts(s.store, x.generation, a);
    case _ =>
  }

  lemma InvalidateShuts(store: Store, g: G.GenerationId, a: ArtifactId)
    requires a in store
    ensures a in Invalidate(store, g) && Invalidate(store, g)[a].generation == store[a].generation
    ensures Invalidate(store, g)[a].playable <==> store[a].playable && store[a].generation != Some(g)
  {
  }

  lemma CompletionShuts(s: Sys, l: Label, a: ArtifactId)
    requires OneActive(s) && ActiveInRange(s) && l.Complete? && Enabled(s, l) && a in s.store
    ensures a in Apply(s, l).store
    ensures var after := Apply(s, l).store[a];
            && (after.playable <==>
                  s.store[a].playable && (Shuts(s, l).None? || after.generation != Shuts(s, l)))
            && (after.generation != s.store[a].generation ==>
                  && l.audio.artifact == Some(a) && s.store[a].generation.None?
                  && after.generation == Some(s.works[l.w].context.generation))
  {
    hide Invalidate, G.Step, G.Gate.Classify;
    var x := s.works[l.w].context;
    var bound := Bind(s.store, l.audio.artifact, x.generation);
    if bound.Some? { InvalidateShuts(bound.value, x.generation, a); }
  }

  // ------------------------------------------------------------------- witness

  /** Works 0 and 1, both in context `x` and both raised, the second after a cancel that has
      yet to report; the first's cancel has timed out and has yet to report too. */
  lemma TwoCancelsLeft(x: Context) returns (labels: seq<Label>)
    ensures Legal(false, labels) && CloseStage !in labels
    ensures Run(false, labels)
            == InitialSys(false).(works := [Work(x, Raised, None), Work(x, Raised, None)],
                                  activeDone := Some(1), cancelRequested := Some(1),
                                  calls := [Call(None, Waited(0, false)), Call(None, Waited(1, true))])
  {
    hide Run, Legal;
    var l5 := FirstIsLate(x);
    var s5 := Run(false, l5);
    var s6 := s5.(works := [Work(x, Raised, None), Work(x, Running, None)], active := Some(1), activeDone := Some(1),
                  cancelRequested := None);
    var l6 := Extend(false, l5, Claim(x), s6);
    assert Invalidate(s6.store, x.generation) == s6.store;
    var s7 := s6.(cancelRequested := Some(1), calls := [Call(None, Waited(0, false)), Call(None, Waiting(1, 1))]);
    var l7 := Extend(false, l6, CancelEnter(x, None), s7);
    var l8 := Extend(false, l7, Fail(1), s7.(works := [Work(x, Raised, None), Work(x, Failed, None)]));
    var s9 := s7.(works := [Work(x, Raised, None), Work(x, Raised, None)], active := None);
    var l9 := Extend(false, l8, Release(1), s9);
    labels := Extend(false, l9, WaitEnds(1, true),
                     s9.(calls := [Call(None, Waited(0, false)), Call(None, Waited(1, true))]));
  }

  lemma FirstIsLate(x: Context) returns (labels: seq<Label>)
    ensures Legal(false, labels) && CloseStage !in labels
    ensures Run(false, labels)
            == InitialSys(false).(works := [Work(x, Raised, None)], activeDone := Some(0), cancelRequested := Some(0),
                                  calls := [Call(None, Waited(0, false))])
  {
    hide Run, Legal;
    var none: seq<Label> := [];
    var l1 := Extend(false, none, Claim(x), OneWork(x, Running)) by { EmptyIsLegal(false); }
    var s2 := OneWork(x, Running).(cancelRequested := Some(0), calls := [Call(None, Waiting(0, 0))]);
    assert Invalidate(s2.store, x.generation) == s2.store;
    var l2 := Extend(false, l1, CancelEnter(x, None), s2);
    var s3 := s2.(calls := [Call(None, Waited(0, false))]);
    var l3 := Extend(false, l2, WaitEnds(0, false), s3);
    var l4 := Extend(false, l3, Fail(0), s3.(works := [Work(x, Failed, None)]));
    labels := Extend(false, l4, Release(0), s3.(works := [Work(x, Raised, None)], active := None));
  }

  lemma EmptyIsLegal(gated: bool)
    ensures Legal(gated, []) && Run(gated, []) == InitialSys(gated)
  {
  }

  /** A report can stop standing on an open stage with no new claim: work 1 is cancelled, and
      step `i` reports COMPLETED; then the late cancel of work 0 reports its time-out, and the
      same cancel of work 1 is answered NoActiveGeneration. */
  lemma LateCancelForgets(x: Context) returns (labels: seq<Label>, i: nat)
    ensures Legal(false, labels) && CloseStage !in labels
    ensures Reports(false, labels, i, Result(CancelCompleted, x, Some(1), true))
    ensures |labels| == i + 2 && labels[i + 1] == CancelFinish(0)
    ensures ActiveInRange(Run(false, labels))
    ensures EnteredStage(Run(false, labels), x, Some(1)) == Answered(Result(NoActiveGeneration, x, Some(1), false))
  {
    hide Run, Legal;
    var l1 := TwoCancelsLeft(x);
    var s1 := Run(false, l1);
    var r1, r0 := Result(CancelCompleted, x, Some(1), true), Result(TimedOut, x, Some(0), true);
    var s2 := s1.(lastCancelWork := Some(1), lastCancelResult := Some(r1),
                  calls := [Call(None, Waited(0, false)), Call(None, Answered(r1))]);
    var l2 := Extend(false, l1, CancelFinish(1), s2);
    var s3 := s2.(lastCancelWork := Some(0), lastCancelResult := Some(r0),
                  calls := [Call(None, Answered(r0)), Call(None, Answered(r1))]);
    labels := Extend(false, l2, CancelFinish(0), s3);
    i := |l1|;
    assert labels[..i + 1] == l2;
  }
}
