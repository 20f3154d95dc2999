/** `submit` of framework/realtime_execution_bridge.py on top of the start and shutdown
    protocol: a submission takes the loop under the lock and posts its coroutine after the
    lock is released. The loop takes whatever is posted a whole batch at a time; the finally
    block cancels the tasks it finds and, if it finds any, runs the loop until they end. */
module ExecutionBridgeSubmit {
  import B = ExecutionBridge

  /** One submission; `late` marks one posted after the worker left `run_forever`. */
  datatype Submission =
    | Refused                   // the section found the bridge closed or the loop unset
    | Captured                  // the section took the loop; not posted yet
    | Rejected                  // posting raised: the loop was closed
    | Posted(late: bool)        // in the loop's queue
    | Started(late: bool)       // a task of the loop
    | Finished                  // the future is done, by result, exception or cancellation

  /** How far the finally block has come before `loop.close()`. */
  datatype Cleanup = NotBegun | Waiting(tasks: set<nat>) | Over

  datatype Sys = Sys(bridge: B.Bridge, submissions: seq<Submission>, cleanup: Cleanup)

  const INITIAL_SYS := Sys(B.INITIAL_BRIDGE, [], NotBegun)

  datatype Label =
    | BridgeStep(l: B.Label)
    | SubmitSection
    | Post(k: nat)
    | TakeBatch                 // one iteration of the loop
    | TaskEnds(k: nat)
    | CleanupBegins(others: bool) // `others`: tasks that are no submissions are pending too
    | CleanupEnds

  /** The loop is being run, by `run_forever` or by the finally block. */
  predicate LoopRuns(s: Sys) {
    s.bridge.worker.Running? || (s.bridge.worker.Finishing? && s.cleanup.Waiting?)
  }

  predicate LoopIsClosed(s: Sys) { s.bridge.worker.LoopClosed? || s.bridge.worker.Exited? }

  predicate Enabled(s: Sys, l: Label) {
    match l
    case BridgeStep(l) => B.Enabled(s.bridge, l) && (l.WorkerCloseLoop? ==> s.cleanup.Over?)
    case SubmitSection => true
    case Post(k) => k < |s.submissions| && s.submissions[k].Captured?
    case TakeBatch => LoopRuns(s)
    case TaskEnds(k) => k < |s.submissions| && s.submissions[k].Started? && LoopRuns(s)
    case CleanupBegins(_) => s.bridge.worker.Finishing? && s.cleanup.NotBegun?
    case CleanupEnds =>
      s.cleanup.Waiting? && forall k :: k in s.cleanup.tasks && k < |s.submissions| ==> s.submissions[k].Finished?
  }

  /** Everything posted becomes a task. */
  function StartAll(ss: seq<Submission>): (r: seq<Submission>)
    ensures |r| == |ss|
    ensures forall k :: 0 <= k < |ss| ==> r[k] == if ss[k].Posted? then Started(ss[k].late) else ss[k]
  {
    if ss == [] then []
    else [if ss[0].Posted? then Started(ss[0].late) else ss[0]] + StartAll(ss[1..])
  }

  /** The pending tasks among the submissions. */
  function Pending(ss: seq<Submission>): set<nat> {
    set k | 0 <= k < |ss| && ss[k].Started?
  }

  function Apply(s: Sys, l: Label): Sys
    requires Enabled(s, l)
  {
    match l
    case BridgeStep(l) =>               // the batch that holds the stop is taken as a whole
      s.(bridge := B.Apply(s.bridge, l),
         submissions := if l.WorkerStop? then StartAll(s.submissions) else s.submissions)
    case SubmitSection =>
      s.(submissions := s.submissions + [if s.bridge.closed || !s.bridge.loopSet then Refused else Captured])
    case Post(k) =>
      s.(submissions := s.submissions[k := if LoopIsClosed(s) then Rejected
                                           else Posted(s.bridge.worker.Finishing?)])
    case TakeBatch => s.(submissions := StartAll(s.submissions))
    case TaskEnds(k) => s.(submissions := s.submissions[k := Finished])
    case CleanupBegins(others) =>
      var tasks := Pending(s.submissions);
      s.(cleanup := if others || tasks != {} then Waiting(tasks) else Over)
    case CleanupEnds => s.(cleanup := Over)
  }

  // -------------------------------------------------------------- invariant

  /** What the worker's position says about one submission. */
  ghost predicate SubmissionInv(b: B.Bridge, cleanup: Cleanup, k: nat, x: Submission) {
    match x
    case Captured => !b.worker.NotStarted? && !b.worker.Entered? && !b.worker.SawClosed?
    case Posted(late) =>
      if late then b.worker.Finishing? || b.worker.LoopClosed? || b.worker.Exited?
      else b.worker.SawOpen? || b.worker.Running?
    case Started(late) =>
      if late then b.worker.Finishing? || b.worker.LoopClosed? || b.worker.Exited?
      else b.worker.Running?
           || (b.worker.Finishing? && (cleanup.NotBegun? || (cleanup.Waiting? && k in cleanup.tasks)))
    case _ => true
  }

  ghost predicate Inv(s: Sys) {
    && B.Inv(s.bridge)
    && (!s.cleanup.NotBegun? ==> s.bridge.worker.Finishing? || LoopIsClosed(s))
    && (LoopIsClosed(s) ==> s.cleanup.Over?)
    && (s.cleanup.Waiting? ==> forall k :: k in s.cleanup.tasks ==> k < |s.submissions|)
    && forall k :: 0 <= k < |s.submissions| ==> SubmissionInv(s.bridge, s.cleanup, k, s.submissions[k])
  }

  /** How the worker can move, and when the bridge closes for submissions. */
  lemma BridgeMoves(b: B.Bridge, l: B.Label)
    requires B.Inv(b) && B.Enabled(b, l)
    ensures var w, w' := b.worker, B.Apply(b, l).worker;
            && (w' == w
                || (l.StartCall? && w.NotStarted? && w'.Entered?)
                || (l.WorkerSection? && w.Entered? && (w'.SawOpen? || w'.SawClosed?))
                || (l.WorkerRun? && w.SawOpen? && w'.Running?)
                || (l.WorkerSkip? && w.SawClosed? && w'.Finishing?)
                || (l.WorkerStop? && w.Running? && w'.Finishing?)
                || (l.WorkerCloseLoop? && w.Finishing? && w'.LoopClosed?)
                || (l.WorkerExit? && w.LoopClosed? && w'.Exited?))
            && (l.WorkerStop? ==> w.Running? && w'.Finishing?)
            && (l.WorkerCloseLoop? ==> w.Finishing? && w'.LoopClosed?)
    ensures b.closed ==> B.Apply(b, l).closed
  {
    hide B.Inv;
  }

  lemma BridgeStepKeepsInv(s: Sys, l: B.Label)
    requires Inv(s) && Enabled(s, BridgeStep(l))
    ensures Inv(Apply(s, BridgeStep(l)))
  {
    hide B.Inv, B.Apply, B.Enabled;
    B.StepKeepsInv(s.bridge, l);
    BridgeMoves(s.bridge, l);
  }

  lemma SectionKeepsInv(s: Sys)
    requires Inv(s)
    ensures Inv(Apply(s, SubmitSection))
  {
    hide B.Inv;
    if !s.bridge.closed && s.bridge.loopSet { OpenLoop(s.bridge); }
  }

  lemma OpenLoop(b: B.Bridge)
    requires B.Inv(b) && !b.closed && b.loopSet
    ensures b.worker.SawOpen? || b.worker.Running?
  {
  }

  lemma PostKeepsInv(s: Sys, k: nat)
    requires Inv(s) && Enabled(s, Post(k))
    ensures Inv(Apply(s, Post(k)))
  {
    hide B.Inv;
  }

  lemma BatchKeepsInv(s: Sys)
    requires Inv(s) && LoopRuns(s)
    ensures Inv(Apply(s, TakeBatch))
  {
    hide B.Inv;
  }

  lemma EndKeepsInv(s: Sys, k: nat)
    requires Inv(s) && Enabled(s, TaskEnds(k))
    ensures Inv(Apply(s, TaskEnds(k)))
  {
    hide B.Inv;
  }

  lemma CleanupKeepsInv(s: Sys, l: Label)
    requires Inv(s) && Enabled(s, l) && (l.CleanupBegins? || l.CleanupEnds?)
    ensures Inv(Apply(s, l))
  {
    hide B.Inv;
    assert forall k :: 0 <= k < |s.submissions| && s.submissions[k].Started? ==> k in Pending(s.submissions);
  }

  lemma StepKeepsInv(s: Sys, l: Label)
    requires Inv(s) && Enabled(s, l)
    ensures Inv(Apply(s, l))
  {
    hide Inv, Apply;
    match l
    case BridgeStep(m) => BridgeStepKeepsInv(s, m);
    case SubmitSection => SectionKeepsInv(s);
    case Post(k) => PostKeepsInv(s, k);
    case TakeBatch => BatchKeepsInv(s);
    case TaskEnds(k) => EndKeepsInv(s, k);
    case CleanupBegins(_) => CleanupKeepsInv(s, l);
    case CleanupEnds => CleanupKeepsInv(s, l);
  }

  // -------------------------------------------------------------------- runs

  ghost function Run(labels: seq<Label>): Sys
    decreases |labels|
  {
    if labels == [] then INITIAL_SYS
    else
      var s, l := Run(labels[..|labels| - 1]), labels[|labels| - 1];
      if Enabled(s, l) then Apply(s, l) else s
  }

  ghost predicate Legal(labels: seq<Label>)
    decreases |labels|
  {
    labels == []
    || (Legal(labels[..|labels| - 1]) && Enabled(Run(labels[..|labels| - 1]), labels[|labels| - 1]))
  }

  lemma InitialHasInv()
    ensures Inv(INITIAL_SYS)
  {
  }

  lemma {:induction false} RunHasInv(labels: seq<Label>)
    requires Legal(labels)
    ensures Inv(Run(labels))
    decreases |labels|
  {
    hide Inv, Apply, Enabled;
    if labels == [] {
      InitialHasInv();
    } else {
      RunHasInv(labels[..|labels| - 1]);
      StepKeepsInv(Run(labels[..|labels| - 1]), labels[|labels| - 1]);
    }
  }

  lemma {:induction false} ClosedIff(labels: seq<Label>)
    requires Legal(labels)
    ensures Run(labels).bridge.closed <==> BridgeStep(B.ShutdownSection) in labels
    decreases |labels|
  {
    hide Enabled, Apply;
    if labels != [] {
      var init, l := labels[..|labels| - 1], labels[|labels| - 1];
      ClosedIff(init);
      assert labels == init + [l];
      StepCloses(Run(init), l);
    }
  }

  lemma StepCloses(s: Sys, l: Label)
    requires Enabled(s, l)
    ensures Apply(s, l).bridge.closed <==> s.bridge.closed || l == BridgeStep(B.ShutdownSection)
  {
    hide StartAll;
  }

  /** A submission is taken, exactly, if no shutdown was ever called and the worker, in its own
      section, has found the bridge open; in every other state it is refused. */
  lemma CapturedIff(labels: seq<Label>)
    requires Legal(labels)
    ensures var s, s' := Run(labels), Apply(Run(labels), SubmitSection);
            var taken := BridgeStep(B.ShutdownSection) !in labels
                         && (s.bridge.worker.SawOpen? || s.bridge.worker.Running?);
            && |s'.submissions| == |s.submissions| + 1
            && (s'.submissions[|s.submissions|] == Captured <==> taken)
            && (s'.submissions[|s.submissions|] == Refused <==> !taken)
  {
    hide Run, Legal, SubmissionInv;
    RunHasInv(labels);
    ClosedIff(labels);
  }

  /** A posted coroutine whose loop is closed and whose future is not done. */
  predicate Stuck(s: Sys, k: nat) {
    && k < |s.submissions| && (s.submissions[k].Posted? || s.submissions[k].Started?)
    && LoopIsClosed(s)
  }

  /** The latest point at which one is still out of reach of the loop: posted after the
      finally block has run the loop for the last time. */
  predicate OutOfReach(s: Sys, k: nat) {
    k < |s.submissions| && (s.submissions[k].Posted? || s.submissions[k].Started?)
    && (LoopIsClosed(s) || (s.bridge.worker.Finishing? && s.cleanup.Over?))
  }

  lemma OutOfReachStays(s: Sys, l: Label, k: nat)
    requires Inv(s) && Enabled(s, l) && OutOfReach(s, k)
    ensures OutOfReach(Apply(s, l), k) && Apply(s, l).submissions[k] == s.submissions[k]
  {
    hide B.Inv, B.Apply, B.Enabled, SubmissionInv;
    if l.BridgeStep? { BridgeMoves(s.bridge, l.l); }
  }

  /** What a submission posted at step `n` is bound to, in every run. Posted while the loop
      has not been left, it becomes a task, and its future is done by the time the loop is
      closed. Posted once the loop is closed, it is rejected. Posted in between, when the
      finally block runs the loop no more, it is stuck for the rest of the run. */
  lemma {:induction false} PostedAt(labels: seq<Label>, n: nat, k: nat)
    requires Legal(labels) && n < |labels| && labels[n] == Post(k)
    ensures k < |Run(labels).submissions| && Legal(labels[..n])
    ensures !Run(labels).submissions[k].Captured?
    ensures Stuck(Run(labels), k) ==> Run(labels[..n]).bridge.worker.Finishing?
    ensures var before, after := Run(labels[..n]), Run(labels);
            && (before.bridge.worker.SawOpen? || before.bridge.worker.Running? ==>
                  after.submissions[k] in {Posted(false), Started(false), Finished}
                  && (LoopIsClosed(after) ==> after.submissions[k] == Finished))
            && (LoopIsClosed(before) ==> after.submissions[k] == Rejected)
            && (before.bridge.worker.Finishing? ==>
                  after.submissions[k] in {Posted(true), Started(true), Finished}
                  && (before.cleanup.Over? ==> after.submissions[k] == Posted(true) && OutOfReach(after, k)))
    decreases |labels|
  {
    hide Inv, Apply, OutOfReach, SubmissionInv;
    var init := labels[..|labels| - 1];
    var s, l := Run(init), labels[|labels| - 1];
    RunHasInv(init);
    RunHasInv(labels);
    PrefixHolds(labels, n);
    if n == |labels| - 1 {
      assert labels[..n] == init;
      PostStep(s, k);
    } else {
      assert init[..n] == labels[..n];
      PostedAt(init, n, k);
      SubmissionStep(s, l, k);
      if OutOfReach(s, k) { OutOfReachStays(s, l, k); }
    }
    ClosedMeansDone(Run(labels), k);
    PostIsPlaced(Run(labels[..n]), k);
  }

  lemma PostIsPlaced(s: Sys, k: nat)
    requires k < |s.submissions| && s.submissions[k].Captured? && Inv(s)
    ensures s.bridge.worker.SawOpen? || s.bridge.worker.Running? || s.bridge.worker.Finishing? || LoopIsClosed(s)
  {
    hide B.Inv;
    assert SubmissionInv(s.bridge, s.cleanup, k, s.submissions[k]);
  }

  lemma {:induction false} PrefixHolds(labels: seq<Label>, n: nat)
    requires Legal(labels) && n < |labels|
    ensures Legal(labels[..n]) && Inv(Run(labels[..n])) && Enabled(Run(labels[..n]), labels[n])
    decreases |labels|
  {
    hide Inv, Apply, Enabled;
    var init := labels[..|labels| - 1];
    if n == |labels| - 1 {
      RunHasInv(init);
    } else {
      assert init[..n] == labels[..n];
      PrefixHolds(init, n);
    }
  }

  lemma PostStep(s: Sys, k: nat)
    requires Inv(s) && Enabled(s, Post(k))
    ensures var s' := Apply(s, Post(k));
            && k < |s'.submissions|
            && s'.submissions[k] == (if LoopIsClosed(s) then Rejected else Posted(s.bridge.worker.Finishing?))
            && (s.bridge.worker.Finishing? && s.cleanup.Over? ==> OutOfReach(s', k))
  {
  }

  lemma ClosedMeansDone(s: Sys, k: nat)
    requires Inv(s)
    ensures k < |s.submissions| && LoopIsClosed(s) ==>
              s.submissions[k] != Posted(false) && s.submissions[k] != Started(false)
  {
    hide B.Inv;
    if k < |s.submissions| { assert SubmissionInv(s.bridge, s.cleanup, k, s.submissions[k]); }
  }

  /** How one submission moves in a step. */
  lemma SubmissionStep(s: Sys, l: Label, k: nat)
    requires Enabled(s, l) && k < |s.submissions| && l != Post(k)
    ensures k < |Apply(s, l).submissions|
    ensures var x, x' := s.submissions[k], Apply(s, l).submissions[k];
            x' == x || (x.Posted? && x' == Started(x.late)) || (x.Started? && x' == Finished)
  {
    hide B.Apply, B.Enabled;
  }

  lemma Extend(labels: seq<Label>, l: Label, s: Sys) returns (more: seq<Label>)
    requires Legal(labels) && Enabled(Run(labels), l) && s == Apply(Run(labels), l)
    ensures more == labels + [l] && Legal(more) && Run(more) == s
  {
    hide Enabled, Apply;
    more := labels + [l];
    assert more[..|more| - 1] == labels;
  }

  /** The stuck one: captured before the shutdown, posted after its stop was taken and before
      the loop is closed. The shutdown reports True, and the future is never done. */
  lemma SubmissionGetsStuck() returns (labels: seq<Label>)
    ensures Legal(labels) && Stuck(Run(labels), 0)
    ensures Run(labels).bridge.shutdowns == [B.Returned(true)]
  {
    hide Run, Legal;
    var l0 := CapturedThenStopped();
    var s := Run(l0);
    var s1 := s.(submissions := [Posted(true)]);
    var l1 := Extend(l0, Post(0), s1);
    var s2 := s1.(cleanup := Over);
    assert Pending(s1.submissions) == {};
    var l2 := Extend(l1, CleanupBegins(false), s2);
    var s3 := s2.(bridge := s.bridge.(worker := B.LoopClosed));
    var l3 := Extend(l2, BridgeStep(B.WorkerCloseLoop), s3);
    var b4 := s.bridge.(worker := B.Exited, loopSet := false, stoppedFlag := true);
    var l4 := Extend(l3, BridgeStep(B.WorkerExit), s2.(bridge := b4));
    labels := Extend(l4, BridgeStep(B.ShutdownJoin(0)), s2.(bridge := b4.(shutdowns := [B.Returned(true)])));
  }

  lemma CapturedThenStopped() returns (labels: seq<Label>)
    ensures Legal(labels)
    ensures Run(labels) == Sys(B.Bridge(B.Finishing, true, true, true, false, [B.Joining]), [Captured], NotBegun)
  {
    hide Run, Legal;
    var l0 := CapturedWhileRunning();
    var b := B.Bridge(B.Running, true, true, false, false, [B.Noted(false, true, true)]);
    var l1 := Extend(l0, BridgeStep(B.Label.ShutdownSection), Sys(b, [Captured], NotBegun));
    var l2 := Extend(l1, BridgeStep(B.ShutdownCheck(0)), Sys(b.(shutdowns := [B.Sending]), [Captured], NotBegun));
    var b3 := b.(shutdowns := [B.Joining], stopQueued := true);
    var l3 := Extend(l2, BridgeStep(B.ShutdownSend(0)), Sys(b3, [Captured], NotBegun));
    assert StartAll([Captured]) == [Captured];
    labels := Extend(l3, BridgeStep(B.WorkerStop), Sys(b3.(worker := B.Finishing), [Captured], NotBegun));
  }

  lemma CapturedWhileRunning() returns (labels: seq<Label>)
    ensures Legal(labels)
    ensures Run(labels) == Sys(B.Bridge(B.Running, true, false, false, false, []), [Captured], NotBegun)
  {
    var none: seq<Label> := [];
    var b := B.INITIAL_BRIDGE;
    var l1 := Extend(none, BridgeStep(B.StartCall), Sys(b.(worker := B.Entered), [], NotBegun));
    hide Run, Legal;
    var l2 := Extend(l1, BridgeStep(B.WorkerSection), Sys(b.(worker := B.SawOpen, loopSet := true), [], NotBegun));
    var s3 := Sys(b.(worker := B.Running, loopSet := true), [], NotBegun);
    var l3 := Extend(l2, BridgeStep(B.WorkerRun), s3);
    labels := Extend(l3, SubmitSection, s3.(submissions := [Captured]));
  }
}
