/** The start / shutdown protocol of framework/realtime_execution_bridge.py between any
    number of callers and one worker thread. The loop leaves `run_forever` only through a
    stop this bridge has queued. */
module ExecutionBridge {

  /** Where the worker thread is in `_thread_main`. */
  datatype Worker =
    | NotStarted
    | Entered           // before the lock section that sets the loop and reads `_closed`
    | SawOpen           // after that section, having read False, before `run_forever`
    | SawClosed         // after that section, having read True
    | Running           // inside `run_forever`
    | Finishing         // in the finally block, the loop still open
    | LoopClosed        // the loop closed, `_loop` still set
    | Exited

  /** One `shutdown` call. */
  datatype Shutdown =
    | Noted(alreadyClosed: bool, threadSeen: bool, loopSeen: bool)
    | Sending
    | Joining
    | Returned(stopped: bool)

  datatype Bridge = Bridge(
    worker: Worker,
    loopSet: bool,
    closed: bool,
    stopQueued: bool,
    stoppedFlag: bool,
    shutdowns: seq<Shutdown>)

  const INITIAL_BRIDGE := Bridge(NotStarted, false, false, false, false, [])

  datatype Label =
    | StartCall
    | WorkerSection
    | WorkerRun
    | WorkerSkip
    | WorkerStop
    | WorkerCloseLoop
    | WorkerExit
    | ShutdownSection
    | ShutdownCheck(c: nat)
    | ShutdownSend(c: nat)
    | ShutdownJoin(c: nat)

  predicate Enabled(b: Bridge, l: Label) {
    match l
    case StartCall => true
    case WorkerSection => b.worker.Entered?
    case WorkerRun => b.worker.SawOpen?
    case WorkerSkip => b.worker.SawClosed?
    case WorkerStop => b.worker.Running? && b.stopQueued
    case WorkerCloseLoop => b.worker.Finishing?
    case WorkerExit => b.worker.LoopClosed?
    case ShutdownSection => true
    case ShutdownCheck(c) => c < |b.shutdowns| && b.shutdowns[c].Noted?
    case ShutdownSend(c) => c < |b.shutdowns| && b.shutdowns[c].Sending?
    case ShutdownJoin(c) => c < |b.shutdowns| && b.shutdowns[c].Joining?
  }

  function Apply(b: Bridge, l: Label): Bridge
    requires Enabled(b, l)
  {
    match l
    case StartCall =>                       // a closed bridge raises; a thread is made once
      if b.closed || !b.worker.NotStarted? then b else b.(worker := Entered)
    case WorkerSection => b.(loopSet := true, worker := if b.closed then SawClosed else SawOpen)
    case WorkerRun => b.(worker := Running)
    case WorkerSkip => b.(worker := Finishing)
    case WorkerStop => b.(worker := Finishing)
    case WorkerCloseLoop => b.(worker := LoopClosed)
    case WorkerExit => b.(worker := Exited, loopSet := false, stoppedFlag := true)
    case ShutdownSection =>
      b.(closed := true, shutdowns := b.shutdowns + [Noted(b.closed, !b.worker.NotStarted?, b.loopSet)])
    case ShutdownCheck(c) =>
      var n := b.shutdowns[c];
      if !n.threadSeen then b.(stoppedFlag := true, shutdowns := b.shutdowns[c := Returned(true)])
      else b.(shutdowns := b.shutdowns[c := if SendsStop(b, c) then Sending else Joining])
    case ShutdownSend(c) =>                 // a closed loop raises RuntimeError, swallowed
      b.(stopQueued := b.stopQueued || !(b.worker.LoopClosed? || b.worker.Exited?),
         shutdowns := b.shutdowns[c := Joining])
    case ShutdownJoin(c) => b.(shutdowns := b.shutdowns[c := Returned(b.worker.Exited?)])
  }

  /** The guard of `call_soon_threadsafe` for call `c`. */
  predicate SendsStop(b: Bridge, c: nat)
    requires c < |b.shutdowns| && b.shutdowns[c].Noted?
  {
    !b.shutdowns[c].alreadyClosed && b.shutdowns[c].loopSeen && b.worker.Running?
  }

  // -------------------------------------------------------------- invariant

  /** Call 0 is the one that closed the bridge; all others found it closed. */
  ghost predicate Inv(b: Bridge) {
    && (b.closed <==> b.shutdowns != [])
    && (forall c :: 0 <= c < |b.shutdowns| && b.shutdowns[c].Noted? ==>
          (b.shutdowns[c].alreadyClosed <==> c > 0)
          && (!b.shutdowns[c].threadSeen <==> b.worker.NotStarted?))
    && (forall c :: 1 <= c < |b.shutdowns| ==> !b.shutdowns[c].Sending?)
    && (b.loopSet <==> !(b.worker.NotStarted? || b.worker.Entered? || b.worker.Exited?))
    && (b.worker.SawClosed? ==> b.closed)
    && (b.worker.Exited? ==> b.stoppedFlag)
    && (b.worker.Finishing? || b.worker.LoopClosed? || b.worker.Exited? ==> b.closed)
    && (b.stopQueued ==> b.closed && !b.shutdowns[0].Noted? && !b.shutdowns[0].Sending?)
    && (b.shutdowns != [] && b.shutdowns[0].Noted? ==>
          (b.shutdowns[0].loopSeen ==> b.worker.SawOpen? || b.worker.Running?)
          && (!b.shutdowns[0].loopSeen ==> !b.worker.SawOpen? && !b.worker.Running?))
    && (b.shutdowns != [] && b.shutdowns[0].Sending? ==> b.worker.Running?)
  }

  lemma WorkerKeepsInv(b: Bridge, l: Label)
    requires Inv(b) && Enabled(b, l)
    requires l.StartCall? || l.WorkerSection? || l.WorkerRun? || l.WorkerSkip? || l.WorkerStop?
             || l.WorkerCloseLoop? || l.WorkerExit?
    ensures Inv(Apply(b, l))
  {
  }

  lemma ShutdownKeepsInv(b: Bridge, l: Label)
    requires Inv(b) && Enabled(b, l)
    requires l.ShutdownSection? || l.ShutdownCheck? || l.ShutdownSend? || l.ShutdownJoin?
    ensures Inv(Apply(b, l))
  {
  }

  lemma StepKeepsInv(b: Bridge, l: Label)
    requires Inv(b) && Enabled(b, l)
    ensures Inv(Apply(b, l))
  {
    hide Inv, Apply, Enabled;
    match l
    case ShutdownSection => ShutdownKeepsInv(b, l);
    case ShutdownCheck(_) => ShutdownKeepsInv(b, l);
    case ShutdownSend(_) => ShutdownKeepsInv(b, l);
    case ShutdownJoin(_) => ShutdownKeepsInv(b, l);
    case _ => WorkerKeepsInv(b, l);
  }

  // ---------------------------------------------------- stopped or lost for good

  /** The worker is gone, was never made, cannot miss the closed flag, has a stop queued,
      or the closing call is about to queue one. */
  ghost predicate WillStop(b: Bridge) {
    && b.closed
    && (|| (!b.worker.SawOpen? && !b.worker.Running?)
        || (b.worker.Running? && (b.stopQueued || (b.shutdowns != [] && b.shutdowns[0].Sending?))))
  }

  /** The bridge is closed, the worker runs or is about to, and nobody will ever stop it. */
  ghost predicate Lost(b: Bridge) {
    && b.closed
    && (b.worker.SawOpen? || b.worker.Running?)
    && !b.stopQueued
    && b.shutdowns != [] && !b.shutdowns[0].Noted? && !b.shutdowns[0].Sending?
  }

  /** Both verdicts are final, whatever anybody does next. */
  lemma VerdictIsFinal(b: Bridge, l: Label)
    requires Inv(b) && Enabled(b, l)
    ensures WillStop(b) && !b.shutdowns[0].Noted? ==> WillStop(Apply(b, l)) && !Apply(b, l).shutdowns[0].Noted?
    ensures Lost(b) ==> Lost(Apply(b, l)) && !Apply(b, l).worker.Exited?
  {
  }

  /** The verdict of the call that closes the bridge, at its check: the worker will stop
      unless the loop was already set but is not running yet, the window between the
      worker's read of `_closed` and `run_forever`; then the stop is lost. */
  lemma StopIsLostExactlyInTheWindow(b: Bridge)
    requires Inv(b) && Enabled(b, ShutdownCheck(0))
    ensures Lost(Apply(b, ShutdownCheck(0))) <==> b.shutdowns[0].loopSeen && !b.worker.Running?
    ensures Lost(Apply(b, ShutdownCheck(0))) <==> b.worker.SawOpen?
    ensures WillStop(Apply(b, ShutdownCheck(0))) <==> !b.worker.SawOpen?
  {
  }

  // -------------------------------------------------------------------- runs

  ghost function Run(labels: seq<Label>): Bridge
    decreases |labels|
  {
    if labels == [] then INITIAL_BRIDGE
    else
      var b, l := Run(labels[..|labels| - 1]), labels[|labels| - 1];
      if Enabled(b, l) then Apply(b, l) else b
  }

  ghost predicate Legal(labels: seq<Label>)
    decreases |labels|
  {
    labels == []
    || (Legal(labels[..|labels| - 1]) && Enabled(Run(labels[..|labels| - 1]), labels[|labels| - 1]))
  }

  lemma {:induction false} RunHasInv(labels: seq<Label>)
    requires Legal(labels)
    ensures Inv(Run(labels))
    decreases |labels|
  {
    hide Inv, Apply, Enabled;
    if labels == [] {
      InitialHasInv();
    } else {
      RunHasInv(labels[..|labels| - 1]);
      StepKeepsInv(Run(labels[..|labels| - 1]), labels[|labels| - 1]);
    }
  }

  lemma InitialHasInv()
    ensures Inv(INITIAL_BRIDGE)
  {
  }

  /** In every run, once the closing call has made its check the bridge is in exactly one of
      two conditions for the rest of the run: bound to stop, or lost. Which one is decided by
      whether the worker stood in the window at the check (step `n`). */
  lemma {:induction false} OneVerdictPerRun(labels: seq<Label>, n: nat)
    requires Legal(labels) && n < |labels| && labels[n] == ShutdownCheck(0)
    ensures Legal(labels[..n])
    ensures if Run(labels[..n]).worker.SawOpen? then Lost(Run(labels)) && !Run(labels).worker.Exited?
            else WillStop(Run(labels))
    ensures Run(labels).shutdowns != [] && !Run(labels).shutdowns[0].Noted?
    decreases |labels|
  {
    hide Inv, Apply, Enabled, Lost, WillStop;
    var init := labels[..|labels| - 1];
    RunHasInv(init);
    if n == |labels| - 1 {
      StopIsLostExactlyInTheWindow(Run(init));
      CheckedIsNotNoted(Run(init));
      LostIsNotExited(Run(labels));
    } else {
      assert init[..n] == labels[..n];
      OneVerdictPerRun(init, n);
      VerdictIsFinal(Run(init), labels[|labels| - 1]);
      CheckedStaysChecked(Run(init), labels[|labels| - 1]);
    }
  }

  lemma CheckedIsNotNoted(b: Bridge)
    requires Enabled(b, ShutdownCheck(0))
    ensures Apply(b, ShutdownCheck(0)).shutdowns != [] && !Apply(b, ShutdownCheck(0)).shutdowns[0].Noted?
  {
  }

  lemma CheckedStaysChecked(b: Bridge, l: Label)
    requires Enabled(b, l) && b.shutdowns != [] && !b.shutdowns[0].Noted?
    ensures Apply(b, l).shutdowns != [] && !Apply(b, l).shutdowns[0].Noted?
  {
  }

  lemma LostIsNotExited(b: Bridge)
    ensures Lost(b) ==> !b.worker.Exited?
  {
  }

  // ------------------------------------------------------- bound to stop, stops

  /** What the worker, or the closing call it depends on, does next. */
  function NextTowardsStop(b: Bridge): Label {
    match b.worker
    case Entered => WorkerSection
    case SawClosed => WorkerSkip
    case Finishing => WorkerCloseLoop
    case LoopClosed => WorkerExit
    case _ => if b.stopQueued then WorkerStop else ShutdownSend(0)
  }

  function StepsLeft(b: Bridge): nat {
    match b.worker
    case Entered => 4
    case SawClosed => 3
    case SawOpen => 6
    case Running => if b.stopQueued then 3 else 4
    case Finishing => 2
    case LoopClosed => 1
    case NotStarted => 0
    case Exited => 0
  }

  /** Nobody can get in the way of that step: it is enabled, and whatever else is done first
      leaves it the next one, and still enabled, with no more steps to go. */
  lemma OthersDoNotBlock(b: Bridge, l: Label)
    requires Inv(b) && WillStop(b) && !b.worker.NotStarted? && !b.worker.Exited?
    requires Enabled(b, l) && l != NextTowardsStop(b)
    ensures Enabled(b, NextTowardsStop(b))
    ensures WillStop(Apply(b, l)) && StepsLeft(Apply(b, l)) == StepsLeft(b)
    ensures NextTowardsStop(Apply(b, l)) == NextTowardsStop(b) && Enabled(Apply(b, l), NextTowardsStop(b))
  {
  }

  /** A bridge bound to stop does so: at most four steps end the worker. */
  lemma {:induction false} WillStopStops(b: Bridge) returns (steps: seq<Label>, b': Bridge)
    requires Inv(b) && WillStop(b) && !b.worker.NotStarted?
    ensures |steps| <= StepsLeft(b) <= 4
    ensures Leads(b, steps, b') && b'.worker.Exited? && b'.stoppedFlag
    decreases StepsLeft(b)
  {
    if b.worker.Exited? {
      steps, b' := [], b;
    } else {
      var l := NextTowardsStop(b);
      StepKeepsInv(b, l);
      steps, b' := WillStopStops(Apply(b, l));
      steps := [l] + steps;
    }
  }

  ghost predicate Leads(b: Bridge, steps: seq<Label>, b': Bridge)
    decreases |steps|
  {
    if steps == [] then b == b'
    else Enabled(b, steps[0]) && Leads(Apply(b, steps[0]), steps[1..], b')
  }

  /** A shutdown that reports True tells the truth: the worker has exited or never existed,
      and no later start can bring one back. */
  lemma ReportedStopIsTrue(b: Bridge, c: nat, l: Label)
    requires Inv(b) && Enabled(b, l) && (l == ShutdownCheck(c) || l == ShutdownJoin(c))
    requires Apply(b, l).shutdowns[c] == Returned(true)
    ensures Apply(b, l).worker.Exited? || Apply(b, l).worker.NotStarted?
    ensures var b' := Apply(b, l); Apply(b', StartCall) == b'
  {
  }

  lemma {:induction false} ClosedIff(labels: seq<Label>)
    requires Legal(labels)
    ensures Run(labels).closed <==> ShutdownSection in labels
    decreases |labels|
  {
    hide Enabled, Apply;
    if labels != [] {
      var init, l := labels[..|labels| - 1], labels[|labels| - 1];
      ClosedIff(init);
      assert labels == init + [l];
      StepCloses(Run(init), l);
    }
  }

  lemma StepCloses(b: Bridge, l: Label)
    requires Enabled(b, l)
    ensures Apply(b, l).closed <==> b.closed || l.ShutdownSection?
  {
  }

  /** What `start` and `shutdown` come to, exactly, in every run: a start makes a worker iff
      none was ever made and no shutdown was called, and changes nothing else; a shutdown
      reports True at once iff no worker was ever made, and after its wait iff the worker has
      exited. */
  lemma CallsAreExact(labels: seq<Label>, c: nat)
    requires Legal(labels)
    ensures var b := Run(labels);
            var b' := Apply(b, StartCall);
            && (b'.worker != b.worker <==> b.worker.NotStarted? && ShutdownSection !in labels)
            && (b'.worker != b.worker ==> b'.worker.Entered?) && b' == b.(worker := b'.worker)
    ensures Enabled(Run(labels), ShutdownCheck(c)) ==>
              var r := Apply(Run(labels), ShutdownCheck(c)).shutdowns[c];
              (r == Returned(true) <==> Run(labels).worker.NotStarted?) && r != Returned(false)
    ensures Enabled(Run(labels), ShutdownJoin(c)) ==>
              Apply(Run(labels), ShutdownJoin(c)).shutdowns[c] == Returned(Run(labels).worker.Exited?)
  {
    hide Run, Legal;
    RunHasInv(labels);
    ClosedIff(labels);
  }

  /** The run that loses the stop: the worker reads `_closed` as False, a shutdown comes and
      finds the loop set but not running, and every later shutdown skips the stop because
      the bridge is closed already. */
  lemma StopCanBeLost() returns (labels: seq<Label>)
    ensures Legal(labels)
    ensures Lost(Run(labels)) && Run(labels).worker.Running?
    ensures Run(labels).shutdowns == [Returned(false), Returned(false)]
  {
    var first := Noted(false, true, true);
    var l3 := ClosedInTheWindow();
    var b3 := Bridge(SawOpen, true, true, false, false, [first]);
    var b4 := b3.(shutdowns := [Joining]);
    var l4 := Extend(l3, ShutdownCheck(0), b4);
    var b5 := b4.(worker := Running);
    var l5 := Extend(l4, WorkerRun, b5);
    var b6 := b5.(shutdowns := [Returned(false)]);
    var l6 := Extend(l5, ShutdownJoin(0), b6);
    var b7 := b6.(shutdowns := [Returned(false), Noted(true, true, true)]);
    var l7 := Extend(l6, ShutdownSection, b7);
    var b8 := b7.(shutdowns := [Returned(false), Joining]);
    var l8 := Extend(l7, ShutdownCheck(1), b8);
    labels := Extend(l8, ShutdownJoin(1), b8.(shutdowns := [Returned(false), Returned(false)]));
  }

  lemma ClosedInTheWindow() returns (labels: seq<Label>)
    ensures Legal(labels)
    ensures Run(labels) == Bridge(SawOpen, true, true, false, false, [Noted(false, true, true)])
  {
    var none: seq<Label> := [];
    var l1 := Extend(none, StartCall, INITIAL_BRIDGE.(worker := Entered));
    var l2 := Extend(l1, WorkerSection, Bridge(SawOpen, true, false, false, false, []));
    labels := Extend(l2, ShutdownSection,
                     Bridge(SawOpen, true, true, false, false, [Noted(false, true, true)]));
  }

  lemma Extend(labels: seq<Label>, l: Label, b: Bridge) returns (more: seq<Label>)
    requires Legal(labels) && Enabled(Run(labels), l) && b == Apply(Run(labels), l)
    ensures more == labels + [l] && Legal(more) && Run(more) == b
  {
    more := labels + [l];
    assert more[..|more| - 1] == labels;
  }
}
