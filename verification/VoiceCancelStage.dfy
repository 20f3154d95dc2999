/** The lock sections of `CancelableProviderNeutralVoiceSynthesisStage` in their imperative
    form, each proved to be one step of the VoiceCancel protocol. The ghost fields hold what
    lives outside the stage: how far each work and each cancel has got. */
module VoiceCancelStage {
  import opened Common
  import opened VoiceCancel
  import G = GenerationGate

  class CancelableVoiceSynthesisStage {
    const gated: bool
    var gate: G.Gate
    var store: Store
    var closed: bool
    var active: Option<(Context, WorkId)>
    var activeDone: Option<WorkId>
    var cancelRequestedWork: Option<WorkId>
    var lastCancelWorkId: Option<WorkId>
    var lastCancelResult: Option<Result>
    var nextWork: WorkId
    ghost var issued: set<G.GenerationId>
    ghost var overwritten: nat
    ghost var presented: nat
    ghost var works: seq<Work>
    ghost var calls: seq<Call>

    ghost function Value(): Sys
      reads this
    {
      Sys(gated, G.History(gate, issued, overwritten, presented), store, closed,
          if active.Some? then Some(active.value.1) else None,
          activeDone, cancelRequestedWork, lastCancelWorkId, lastCancelResult, works, calls)
    }

    ghost predicate Valid()
      reads this
    {
      && Inv(Value())
      && nextWork == |works|
      && (active.Some? ==> active.value.1 < |works| && works[active.value.1].context == active.value.0)
    }

    constructor (gated: bool)
      ensures Valid() && Value() == InitialSys(gated)
    {
      hide Inv;
      this.gated, gate, store, closed := gated, G.INITIAL_GATE, map[], false;
      active, activeDone, cancelRequestedWork, lastCancelWorkId, lastCancelResult := None, None, None, None, None;
      nextWork, issued, overwritten, presented, works, calls := 0, {}, 0, 0, [], [];
      new;
      InitialHasInv(gated);
      assert Value() == InitialSys(gated);
    }

    /** A claim raises (None) on a closed or busy stage. */
    method ClaimGeneration(context: Context) returns (work: Option<WorkId>)
      requires Valid()
      modifies this
      ensures Valid() && ActiveInRange(old(Value())) && Value() == Apply(old(Value()), Claim(context))
      ensures work == if old(closed) || old(active).Some? then None else Some(|old(works)|)
    {
      hide Inv, CompleteWork, Enter, Finish, Invalidate, SetStage, SetPhase, G.Step, G.Enabled;
      InvGivesRange(Value());
      StepKeepsInv(Value(), Claim(context));
      if closed || active.Some? { return None; }
      active, activeDone := Some((context, nextWork)), Some(nextWork);
      cancelRequestedWork, lastCancelWorkId, lastCancelResult := None, None, None;
      works := works + [Work(context, Running, None)];
      work, nextWork := Some(nextWork), nextWork + 1;
    }

    /** The completion section of `_run_claimed`; None is an exception. */
    method CompletionSection(work: WorkId, audio: Audio) returns (envelope: Option<Envelope>)
      requires Valid() && Enabled(Value(), Complete(work, audio))
      modifies this
      ensures Valid() && ActiveInRange(old(Value())) && Value() == Apply(old(Value()), Complete(work, audio))
      ensures work < |works| && envelope == EnvelopeOf(works[work].phase)
    {
      hide Inv, G.Gate.Classify, Bind, Invalidate, Enter, Finish, SetStage, G.Enabled;
      ghost var s := Value();
      InvGivesRange(s);
      StepKeepsInv(s, Complete(work, audio));
      // The test for another work being active cannot fail here, see CompletionIsExact.
      var context := active.value.0;
      var cancelled := cancelRequestedWork == Some(work);
      var stale := false;
      if !cancelled && gated {
        stale := !gate.Classify(context.turn, context.generation).accepted;
        gate := gate.Admit(context.turn, context.generation);
        presented := presented + 1;
      }
      var bound := Bind(store, audio.artifact, context.generation);
      if bound.None? {
        works := SetPhase(s, work, Failed).works;
        return None;
      }
      var e := if cancelled then Cancelled else if stale then Stale else Delivered(audio);
      store := if cancelled || stale then Invalidate(bound.value, context.generation) else bound.value;
      works := works[work := Work(context, Completed(e), audio.artifact)];
      envelope := Some(e);
    }

    /** The finally section; with it the event of `work` is set. */
    method ReleaseSection(work: WorkId)
      requires Valid() && Enabled(Value(), Release(work))
      modifies this
      ensures Valid() && ActiveInRange(old(Value())) && Value() == Apply(old(Value()), Release(work))
      ensures IsDone(Value(), work)
    {
      hide Inv, CompleteWork, Enter, Finish, Invalidate, SetStage, G.Step, G.Enabled;
      InvGivesRange(Value());
      StepKeepsInv(Value(), Release(work));
      var p := works[work].phase;
      works := SetPhase(Value(), work, if p.Completed? then Returned(p.envelope) else Raised).works;
      if active.Some? && active.value.1 == work { active := None; }
    }

    /** The first section of `cancel`: an answer, or None after putting up the barrier. */
    method CancelFirstSection(context: Context, asked: Option<WorkId>) returns (answer: Option<Result>)
      requires Valid()
      modifies this
      ensures Valid() && ActiveInRange(old(Value()))
      ensures Value() == Apply(old(Value()), CancelEnter(context, asked))
      ensures answer == FirstAnswer(old(Value()), context, asked)
      ensures answer.None? ==> Installs(old(Value()), CancelEnter(context, asked), activeDone.value)
    {
      hide Inv, Invalidate, CompleteWork, Finish, SetPhase, G.Step, G.Enabled;
      ghost var s := Value();
      InvGivesRange(s);
      StepKeepsInv(s, CancelEnter(context, asked));
      ghost var stage := Enter(s, context, asked).1;
      answer := FirstSectionAnswer(context, asked);
      if answer.None? {
        cancelRequestedWork := Some(active.value.1);
        store := Invalidate(store, context.generation);
      }
      calls := calls + [Call(None, stage)];
    }

    method FirstSectionAnswer(context: Context, asked: Option<WorkId>) returns (answer: Option<Result>)
      requires Valid() && ActiveInRange(Value())
      ensures answer == FirstAnswer(Value(), context, asked)
    {
      hide Inv;
      if closed { return Some(Result(AlreadyClosed, context, asked, false)); }
      if active.None? {
        if lastCancelResult.Some? && lastCancelResult.value.context == context
           && (asked.None? || asked == lastCancelWorkId) {
          return lastCancelResult;
        }
        return Some(Result(NoActiveGeneration, context, asked, false));
      }
      var (running, work) := active.value;
      if running != context || (asked.Some? && asked != Some(work)) {
        return Some(Result(WorkMismatch, context, asked, false));
      }
      if lastCancelResult.Some? && lastCancelWorkId == Some(work) { return lastCancelResult; }
      answer := None;
    }

    /** The second section of call `c`, which waited on `work` in `context`. */
    method CancelSecondSection(c: nat, work: WorkId, context: Context, completed: bool) returns (r: Result)
      requires Valid() && Enabled(Value(), CancelFinish(c)) && calls[c].stage == Waited(work, completed)
      requires works[work].context == context
      modifies this
      ensures Valid() && ActiveInRange(old(Value())) && Value() == Apply(old(Value()), CancelFinish(c))
      ensures c < |calls| && calls[c].stage == Answered(r)
    {
      hide Inv, CompleteWork, Enter, Invalidate, SetPhase, G.Step, G.Enabled;
      InvGivesRange(Value());
      StepKeepsInv(Value(), CancelFinish(c));
      if lastCancelResult.Some? && lastCancelWorkId == Some(work) {
        r := lastCancelResult.value;
      } else {
        r := Result(if completed then CancelCompleted else TimedOut, context, Some(work), true);
        lastCancelWorkId, lastCancelResult := Some(work), Some(r);
      }
      calls := calls[c := calls[c].(stage := Answered(r))];
    }

    method Close()
      requires Valid()
      modifies this
      ensures Valid() && ActiveInRange(old(Value())) && Value() == Apply(old(Value()), CloseStage)
    {
      hide Inv;
      InvGivesRange(Value());
      StepKeepsInv(Value(), CloseStage);
      closed := true;
    }
  }
}
