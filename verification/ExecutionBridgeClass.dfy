/** `_RealtimeExecutionBridge` in its imperative form: the lock sections of `start`,
    `_thread_main` and `shutdown`, each proved to be one step of the ExecutionBridge protocol.
    The ghost fields hold where the worker thread and the shutdown calls are. */
module ExecutionBridgeClass {
  import opened ExecutionBridge

  class RealtimeExecutionBridge {
    var thread: bool             // a thread object exists
    var loop: bool               // the loop is set
    var closed: bool
    var stopped: bool            // the stopped event
    var stopQueued: bool         // a stop is queued in the loop
    ghost var worker: Worker
    ghost var shutdowns: seq<Shutdown>

    ghost function Value(): Bridge
      reads this
    {
      Bridge(worker, loop, closed, stopQueued, stopped, shutdowns)
    }

    ghost predicate Valid()
      reads this
    {
      Inv(Value()) && (thread <==> !worker.NotStarted?)
    }

    constructor ()
      ensures Valid() && Value() == INITIAL_BRIDGE
    {
      thread, loop, closed, stopped, stopQueued := false, false, false, false, false;
      worker, shutdowns := NotStarted, [];
    }

    /** The first section of `start`; False is the exception of a closed bridge. */
    method StartSection() returns (ok: bool)
      requires Valid()
      modifies this
      ensures Valid() && Value() == Apply(old(Value()), StartCall)
      ensures ok <==> !closed
      ensures ok ==> thread
    {
      StepKeepsInv(Value(), StartCall);
      if closed { return false; }
      if !thread {
        thread := true;
        worker := Entered;
      }
      ok := true;
    }

    /** The worker publishes its loop and reads `_closed`. */
    method PublishLoop() returns (closedBeforeStart: bool)
      requires Valid() && worker.Entered?
      modifies this
      ensures Valid() && Value() == Apply(old(Value()), WorkerSection)
      ensures closedBeforeStart <==> closed
    {
      StepKeepsInv(Value(), WorkerSection);
      loop := true;
      closedBeforeStart := closed;
      worker := if closedBeforeStart then SawClosed else SawOpen;
    }

    /** The last section of `_thread_main`. */
    method Unpublish()
      requires Valid() && worker.LoopClosed?
      modifies this
      ensures Valid() && Value() == Apply(old(Value()), WorkerExit)
    {
      StepKeepsInv(Value(), WorkerExit);
      loop := false;
      stopped := true;
      worker := Exited;
    }

    /** The section of `shutdown`, with the snapshot it takes. */
    method ShutdownSection() returns (alreadyClosed: bool, hasThread: bool, hasLoop: bool)
      requires Valid()
      modifies this
      ensures Valid() && Value() == Apply(old(Value()), Label.ShutdownSection)
      ensures shutdowns == old(shutdowns) + [Noted(alreadyClosed, hasThread, hasLoop)]
    {
      StepKeepsInv(Value(), Label.ShutdownSection);
      alreadyClosed := closed;
      closed := true;
      hasThread, hasLoop := thread, loop;
      shutdowns := shutdowns + [Noted(alreadyClosed, hasThread, hasLoop)];
    }

    /** What call `c` does with its snapshot, and with what `is_running` answers: whether it
        goes on to send a stop, or has returned. */
    method CheckSnapshot(c: nat, alreadyClosed: bool, hasThread: bool, hasLoop: bool, isRunning: bool)
      returns (returned: bool, sends: bool)
      requires Valid() && c < |shutdowns| && shutdowns[c] == Noted(alreadyClosed, hasThread, hasLoop)
      requires isRunning <==> worker.Running?
      modifies this
      ensures Valid() && Enabled(old(Value()), ShutdownCheck(c))
      ensures Value() == Apply(old(Value()), ShutdownCheck(c))
      ensures c < |shutdowns|
      ensures returned <==> shutdowns[c] == Returned(true)
      ensures sends <==> shutdowns[c].Sending?
    {
      StepKeepsInv(Value(), ShutdownCheck(c));
      if !hasThread {
        stopped := true;
        shutdowns := shutdowns[c := Returned(true)];
        return true, false;
      }
      returned, sends := false, !alreadyClosed && hasLoop && isRunning;
      shutdowns := shutdowns[c := if sends then Sending else Joining];
    }

    /** `call_soon_threadsafe`; a closed loop raises, which `shutdown` swallows. */
    method SendStop(c: nat, loopIsClosed: bool)
      requires Valid() && Enabled(Value(), ShutdownSend(c))
      requires loopIsClosed <==> worker.LoopClosed? || worker.Exited?
      modifies this
      ensures Valid() && Value() == Apply(old(Value()), ShutdownSend(c))
    {
      StepKeepsInv(Value(), ShutdownSend(c));
      if !loopIsClosed { stopQueued := true; }
      shutdowns := shutdowns[c := Joining];
    }
  }
}
