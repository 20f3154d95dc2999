/** The deterministic scheduler of framework/realtime_fake_runtime.py: its state as a value,
    what "sort by due tick, then sequence" means for it, and order over every run in which
    callbacks schedule, pause, resume and run further work. */
module FakeScheduler {
  import opened Common

  type StageKind = nat

  datatype Entry = Entry(due: nat, sequence: nat, stage: Option<StageKind>)

  datatype TraceKind =
    | ActionScheduled | ActionExecuted | ClockAdvanced | StagePaused | StageResumed
    | QueueOverflow | DuplicateTerminal | ControllerClosed

  datatype Event = Event(tick: nat, kind: TraceKind, entry: Option<Entry>, stage: Option<StageKind>)

  datatype Answer<+T> = Ok(value: T) | ClosedError | OverflowError | LimitExceeded | BadCount

  /** The order of the heap entries. */
  predicate Before(a: Entry, b: Entry) {
    a.due < b.due || (a.due == b.due && a.sequence < b.sequence)
  }

  /** The state; the order in which the heap list holds its entries is not part of it. */
  datatype Sched = Sched(
    capacity: nat,
    tick: nat,
    nextSequence: nat,
    queue: set<Entry>,
    paused: set<StageKind>,
    closed: bool,
    trace: seq<Event>)
  {
    function Record(kind: TraceKind, entry: Option<Entry>, stage: Option<StageKind>): Sched {
      this.(trace := trace + [Event(tick, kind, entry, stage)])
    }

    function Schedule(delay: nat, stage: Option<StageKind>): (Sched, Answer<Entry>) {
      if closed then (this, ClosedError)
      else if |queue| + 1 > capacity then (Record(QueueOverflow, None, None), OverflowError)
      else
        var e := Entry(tick + delay, nextSequence, stage);
        (this.(queue := queue + {e}, nextSequence := nextSequence + 1).Record(ActionScheduled, Some(e), stage),
         Ok(e))
    }

    function Pause(stage: StageKind): (Sched, Answer<bool>) {
      if closed then (this, ClosedError)
      else if stage in paused then (this, Ok(false))
      else (this.(paused := paused + {stage}).Record(StagePaused, None, Some(stage)), Ok(true))
    }

    function Resume(stage: StageKind): (Sched, Answer<bool>) {
      if closed then (this, ClosedError)
      else if stage !in paused then (this, Ok(false))
      else (this.(paused := paused - {stage}).Record(StageResumed, None, Some(stage)), Ok(true))
    }

    function AdvanceTo(t: nat): Sched {
      if t <= tick then this else this.(tick := t).Record(ClockAdvanced, None, None)
    }

    function Close(): Sched {
      if closed then this
      else this.(closed := true, queue := {}, paused := {}).Record(ControllerClosed, None, None)
    }

    predicate Runnable(e: Entry) { e.stage.None? || e.stage.value !in paused }

    predicate Eligible(e: Entry, dueOnly: bool) { (dueOnly ==> e.due <= tick) && Runnable(e) }

    function Ready(dueOnly: bool): set<Entry> {
      set e | e in queue && Eligible(e, dueOnly)
    }

    /** `_pop_next_runnable`, then for `run_next` the clock, then `_execute` up to the callback. */
    ghost function RunOne(dueOnly: bool): (Sched, Option<Entry>)
      requires Unique(queue)
    {
      if Ready(dueOnly) == {} then (this, None)
      else
        var e := Least(Ready(dueOnly));
        var popped := this.(queue := queue - {e});
        ((if dueOnly then popped else popped.AdvanceTo(e.due)).Record(ActionExecuted, Some(e), e.stage),
         Some(e))
    }
  }

  // -------------------------------------------------------------- sorting

  ghost predicate Unique(q: set<Entry>) {
    forall a, b :: a in q && b in q && a.sequence == b.sequence ==> a == b
  }

  /** The entry before all others. */
  ghost function Least(q: set<Entry>): (e: Entry)
    requires q != {} && Unique(q)
    ensures e in q && forall f :: f in q && f != e ==> Before(e, f)
    decreases |q|
  {
    var x :| x in q;
    var others := q - {x};
    assert forall f :: f in q ==> f == x || f in others;
    if others == {} then x
    else
      var r := Least(others);
      assert x.sequence != r.sequence;
      if Before(x, r) then x else r
  }

  lemma LeastIs(q: set<Entry>, e: Entry)
    requires q != {} && Unique(q) && e in q && forall f :: f in q && f != e ==> Before(e, f)
    ensures Least(q) == e
  {
  }

  /** Sorting by due tick, then sequence. */
  ghost function Sorted(q: set<Entry>): seq<Entry>
    requires Unique(q)
    decreases |q|
  {
    if q == {} then [] else [Least(q)] + Sorted(q - {Least(q)})
  }

  ghost predicate Increasing(s: seq<Entry>) {
    forall i, j :: 0 <= i < j < |s| ==> Before(s[i], s[j])
  }

  function Elements(s: seq<Entry>): set<Entry> {
    set e | e in s
  }

  lemma IncreasingConcat(s: seq<Entry>, t: seq<Entry>)
    requires Increasing(s) && Increasing(t)
    requires forall x, y :: x in Elements(s) && y in Elements(t) ==> Before(x, y)
    ensures Increasing(s + t) && Elements(s + t) == Elements(s) + Elements(t)
  {
    assert forall x :: x in s + t <==> x in s || x in t;
    forall i, j | 0 <= i < j < |s + t| ensures Before((s + t)[i], (s + t)[j]) {
      if i < |s| <= j {
        assert s[i] in Elements(s) && t[j - |s|] in Elements(t);
      }
    }
  }

  lemma IncreasingSplit(s: seq<Entry>)
    requires Increasing(s) && s != []
    ensures Increasing(s[1..]) && s[0] in Elements(s) && Elements(s[1..]) == Elements(s) - {s[0]}
    ensures forall f :: f in Elements(s) && f != s[0] ==> Before(s[0], f)
  {
    assert s[0] !in s[1..] by {
      forall i | 1 <= i < |s| ensures s[i] != s[0] { assert Before(s[0], s[i]); }
    }
    assert s == [s[0]] + s[1..];
  }

  lemma OneElement(e: Entry)
    ensures Increasing([e]) && Elements([e]) == {e}
  {
  }

  lemma {:induction false} SortedIsSorted(q: set<Entry>)
    requires Unique(q)
    ensures Increasing(Sorted(q)) && Elements(Sorted(q)) == q && |Sorted(q)| == |q|
    decreases |q|
  {
    if q == {} {
    } else {
      hide Increasing, Elements, Before;
      var e := Least(q);
      SortedIsSorted(q - {e});
      OneElement(e);
      IncreasingConcat([e], Sorted(q - {e}));
    }
  }

  /** There is only one way to sort. */
  lemma {:induction false} SortedIsUnique(s: seq<Entry>, q: set<Entry>)
    requires Unique(q) && Increasing(s) && Elements(s) == q
    ensures s == Sorted(q)
    decreases |s|
  {
    if s == [] {
    } else {
      hide Increasing, Elements, Before;
      IncreasingSplit(s);
      LeastIs(q, s[0]);
      SortedIsUnique(s[1..], q - {s[0]});
      assert s == [s[0]] + s[1..];
    }
  }

  /** Sorting a set whose one part comes before the other. */
  lemma SortedSplits(a: set<Entry>, b: set<Entry>)
    requires Unique(a + b) && forall x, y :: x in a && y in b ==> Before(x, y)
    ensures Sorted(a + b) == Sorted(a) + Sorted(b)
  {
    hide Sorted, Increasing, Elements, Before;
    SortedIsSorted(a);
    SortedIsSorted(b);
    IncreasingConcat(Sorted(a), Sorted(b));
    SortedIsUnique(Sorted(a) + Sorted(b), a + b);
  }

  // ------------------------------------------------- running, inert callbacks

  /** Up to `n` actions, one after the other, with callbacks that leave the scheduler alone. */
  ghost function RunMany(s: Sched, dueOnly: bool, n: nat): (Sched, seq<Entry>)
    requires Unique(s.queue)
    decreases n
  {
    if n == 0 || s.RunOne(dueOnly).1.None? then (s, [])
    else
      var (s1, e) := s.RunOne(dueOnly);
      var (s2, rest) := RunMany(s1, dueOnly, n - 1);
      (s2, [e.value] + rest)
  }

  function Min(a: nat, b: nat): nat { if a < b then a else b }

  /** The clock after executing `done` by `run_next`. */
  function ClockAfter(t: nat, done: seq<Entry>): nat {
    if done == [] || done[|done| - 1].due <= t then t else done[|done| - 1].due
  }

  /** One action: the head of the sorted eligible entries. */
  lemma OneStep(s: Sched, dueOnly: bool)
    requires Unique(s.queue) && s.Ready(dueOnly) != {}
    ensures var (s1, e) := s.RunOne(dueOnly);
            && e == Some(Least(s.Ready(dueOnly)))
            && s1.queue == s.queue - {e.value}
            && s1.Ready(dueOnly) == s.Ready(dueOnly) - {e.value}
            && s1.tick == (if dueOnly then s.tick else ClockAfter(s.tick, [e.value]))
            && s1.paused == s.paused && s1.nextSequence == s.nextSequence && s1.closed == s.closed
            && s1.capacity == s.capacity && (dueOnly ==> e.value.due <= s.tick)
  {
    hide Least;
  }

  lemma TakeCons(e: Entry, rest: seq<Entry>, n: nat)
    requires 0 < n
    ensures ([e] + rest)[..Min(n, |rest| + 1)] == [e] + rest[..Min(n - 1, |rest|)]
    ensures Elements([e] + rest) == {e} + Elements(rest)
  {
  }

  lemma ClockAfterCons(t: nat, e: Entry, rest: seq<Entry>)
    requires Increasing([e] + rest)
    ensures ClockAfter(ClockAfter(t, [e]), rest) == ClockAfter(t, [e] + rest)
  {
    var s := [e] + rest;
    if rest != [] {
      assert Before(s[0], s[|s| - 1]);
    }
  }

  lemma TakeIncreasing(s: seq<Entry>, n: nat)
    requires Increasing(s) && n <= |s|
    ensures Increasing(s[..n])
  {
  }

  /** From `s` to `s'`, executing `done`: the eligible entries in sorted order, as many as
      allowed; exactly they leave the queue; the clock stands at the last one's due tick
      unless it was past it, and does not move for a `run_due`. */
  ghost predicate RanSorted(s: Sched, dueOnly: bool, n: nat, s': Sched, done: seq<Entry>)
    requires Unique(s.queue)
  {
    var sorted := Sorted(s.Ready(dueOnly));
    && done == sorted[..Min(n, |sorted|)]
    && s'.queue == s.queue - Elements(done)
    && s'.tick == (if dueOnly then s.tick else ClockAfter(s.tick, done))
    && s'.paused == s.paused && s'.nextSequence == s.nextSequence && s'.closed == s.closed
  }

  lemma RanCons(s: Sched, dueOnly: bool, n: nat, s': Sched, rest: seq<Entry>)
    requires Unique(s.queue) && s.Ready(dueOnly) != {} && n > 0
    requires Unique(s.RunOne(dueOnly).0.queue) && RanSorted(s.RunOne(dueOnly).0, dueOnly, n - 1, s', rest)
    ensures RanSorted(s, dueOnly, n, s', [Least(s.Ready(dueOnly))] + rest)
  {
    hide Increasing, Elements, Least, Sched.RunOne, Before, Sched.Eligible, ClockAfter;
    var ready, e := s.Ready(dueOnly), Least(s.Ready(dueOnly));
    var sorted := Sorted(ready - {e});
    OneStep(s, dueOnly);
    SortedIsSorted(ready);
    TakeCons(e, sorted, n);
    TakeCons(e, rest, n);
    TakeIncreasing(Sorted(ready), Min(n, |sorted| + 1));
    ClockAfterCons(s.tick, e, rest);
  }

  /** Running is sorting. */
  lemma {:induction false} RunningIsSorting(s: Sched, dueOnly: bool, n: nat)
    requires Unique(s.queue)
    ensures RanSorted(s, dueOnly, n, RunMany(s, dueOnly, n).0, RunMany(s, dueOnly, n).1)
    decreases n
  {
    hide Elements, Least, Sched.RunOne, Sched.Ready, ClockAfter, RanSorted;
    if n == 0 || s.Ready(dueOnly) == {} {
      NothingRuns(s, dueOnly, n);
    } else {
      OneStep(s, dueOnly);
      RunningIsSorting(s.RunOne(dueOnly).0, dueOnly, n - 1);
      RanCons(s, dueOnly, n, RunMany(s, dueOnly, n).0, RunMany(s, dueOnly, n).1[1..]);
    }
  }

  lemma NothingRuns(s: Sched, dueOnly: bool, n: nat)
    requires Unique(s.queue) && (n == 0 || s.Ready(dueOnly) == {})
    ensures s.Ready(dueOnly) == {} ==> s.RunOne(dueOnly).1.None?
    ensures RunMany(s, dueOnly, n) == (s, [])
    ensures RanSorted(s, dueOnly, n, s, [])
  {
  }

  /** A paused stage's entries are exactly what a pause takes out of reach, nothing of that
      stage runs meanwhile, and resuming brings exactly them back. */
  lemma PauseBlocksAndResumeRestores(s: Sched, kind: StageKind, dueOnly: bool)
    requires !s.closed && Unique(s.queue)
    ensures var p := s.Pause(kind).0;
            && p.Ready(dueOnly) == (set e | e in s.Ready(dueOnly) && e.stage != Some(kind))
            && p.queue == s.queue
            && (p.RunOne(dueOnly).1.Some? ==> p.RunOne(dueOnly).1.value.stage != Some(kind))
            && (kind !in s.paused ==>
                  SameButTrace(s, p.Resume(kind).0) && p.Resume(kind).0.Ready(dueOnly) == s.Ready(dueOnly))
  {
    hide Least;
    var p := s.Pause(kind).0;
    if kind !in s.paused {
      assert p.Resume(kind).0.paused == s.paused;
    }
  }

  // ----------------------------------------------------- the public run calls

  ghost function RunDue(s: Sched, limit: Option<nat>): (Sched, Answer<seq<Entry>>)
    requires Unique(s.queue)
  {
    if s.closed then (s, ClosedError)
    else if limit == Some(0) then (s, BadCount)
    else
      var (s', done) := RunMany(s, true, if limit.Some? then limit.value else |s.queue|);
      (s', Ok(done))
  }

  ghost function AdvanceBy(s: Sched, ticks: nat, runDue: bool): (Sched, Answer<seq<Entry>>)
    requires Unique(s.queue)
  {
    if s.closed then (s, ClosedError)
    else
      var s1 := s.AdvanceTo(s.tick + ticks);
      if runDue then RunDue(s1, None) else (s1, Ok([]))
  }

  ghost function RunUntilIdle(s: Sched, limit: nat): (Sched, Answer<seq<Entry>>)
    requires Unique(s.queue)
  {
    if s.closed then (s, ClosedError)
    else if limit == 0 then (s, BadCount)
    else
      var (s', done) := RunMany(s, false, limit);
      (s', if |done| == limit && s'.Ready(false) != {} then LimitExceeded else Ok(done))
  }

  lemma NotTaken(s: seq<Entry>, n: nat)
    requires Increasing(s) && n < |s|
    ensures s[n] in Elements(s) && s[n] !in Elements(s[..n])
  {
    assert forall i :: 0 <= i < n ==> Before(s[i], s[n]);
  }

  /** `run_until_idle` executes exactly the unpaused entries in sorted order and leaves
      exactly the paused ones, or raises; it raises if and only if more than `limit` were
      unpaused. */
  lemma IdleMeansOnlyPausedLeft(s: Sched, limit: nat)
    requires Unique(s.queue) && !s.closed && limit > 0
    ensures var (s', r) := RunUntilIdle(s, limit);
            && (r.LimitExceeded? <==> |s.Ready(false)| > limit)
            && (!r.LimitExceeded? ==>
                  && r == Ok(Sorted(s.Ready(false)))
                  && s'.queue == (set e | e in s.queue && e.stage.Some? && e.stage.value in s.paused)
                  && s'.tick == ClockAfter(s.tick, r.value))
            && s'.paused == s.paused
  {
    hide Least, Increasing, Elements, ClockAfter;
    var ready := s.Ready(false);
    var sorted := Sorted(ready);
    var (s', done) := RunMany(s, false, limit);
    RunningIsSorting(s, false, limit);
    SortedIsSorted(ready);
    assert s'.Ready(false) == ready - Elements(done);
    if limit < |sorted| {
      NotTaken(sorted, limit);
      assert sorted[limit] in s'.Ready(false);
    } else {
      assert done == sorted;
      assert s'.Ready(false) == {};
    }
  }

  ghost predicate SameButTrace(a: Sched, b: Sched) {
    b == a.(trace := b.trace)
  }

  /** The unpaused entries due at clock `t`. */
  ghost function DueBy(q: set<Entry>, paused: set<StageKind>, t: nat): set<Entry> {
    set e | e in q && e.due <= t && (e.stage.None? || e.stage.value !in paused)
  }

  lemma AdvanceRuns(s: Sched, a: nat)
    requires Unique(s.queue) && !s.closed
    ensures var due := DueBy(s.queue, s.paused, s.tick + a);
            var (s', r) := AdvanceBy(s, a, true);
            && r == Ok(Sorted(due))
            && s' == s.(tick := s.tick + a, queue := s.queue - due, trace := s'.trace)
  {
    hide Least, Increasing, Elements, Before;
    var s0 := s.AdvanceTo(s.tick + a);
    var due := s0.Ready(true);
    assert due == DueBy(s.queue, s.paused, s.tick + a);
    RunningIsSorting(s0, true, |s0.queue|);
    SortedIsSorted(due);
    SubsetIsSmaller(due, s0.queue);
    assert Sorted(due)[..|due|] == Sorted(due);
    RunKeepsCapacity(s0, true, |s0.queue|);
  }

  /** `run_due`, exactly: refused iff closed, or iff asked for none; otherwise it executes the
      unpaused due entries in sorted order, all of them or as many as asked for, takes exactly
      those off the queue, and does not move the clock. */
  lemma RunDueIsExact(s: Sched, limit: Option<nat>)
    requires Unique(s.queue)
    ensures var due := DueBy(s.queue, s.paused, s.tick);
            var (s', r) := RunDue(s, limit);
            && (r == ClosedError <==> s.closed) && (r == BadCount <==> !s.closed && limit == Some(0))
            && (r.Ok? <==> !s.closed && limit != Some(0)) && (!r.Ok? ==> s' == s)
            && (r.Ok? ==>
                  var n := if limit.None? || limit.value > |due| then |due| else limit.value;
                  && n <= |Sorted(due)| && r.value == Sorted(due)[..n]
                  && s'.queue == s.queue - Elements(r.value) && s'.tick == s.tick
                  && s'.paused == s.paused && s'.nextSequence == s.nextSequence && !s'.closed)
  {
    hide Least, Increasing, Before, Elements;
    var due := s.Ready(true);
    assert due == DueBy(s.queue, s.paused, s.tick);
    if !s.closed && limit != Some(0) {
      RunningIsSorting(s, true, if limit.Some? then limit.value else |s.queue|);
      SortedIsSorted(due);
      SubsetIsSmaller(due, s.queue);
    }
  }

  /** `advance_by`, exactly: refused iff closed; otherwise the clock moves by just that much,
      and with `run_due` the unpaused entries due by then run in sorted order and leave the
      queue, without it nothing else happens. */
  lemma AdvanceByIsExact(s: Sched, ticks: nat, runDue: bool)
    requires Unique(s.queue)
    ensures var due := if runDue then DueBy(s.queue, s.paused, s.tick + ticks) else {};
            var (s', r) := AdvanceBy(s, ticks, runDue);
            && (r == ClosedError <==> s.closed) && (s.closed ==> s' == s)
            && (!s.closed ==>
                  && Unique(due) && r == Ok(Sorted(due))
                  && s' == s.(tick := s.tick + ticks, queue := s.queue - due, trace := s'.trace))
  {
    hide RunDue, Least, Increasing, Elements, Before;
    if !s.closed && runDue {
      AdvanceRuns(s, ticks);
    } else {
      assert s.queue - {} == s.queue;
      assert Sorted({}) == [];
    }
  }

  /** Advancing in one go or in two is the same for actions that leave the scheduler alone:
      same executions in the same order, same queue, same clock. */
  lemma AdvanceSplits(s: Sched, a: nat, b: nat)
    requires Unique(s.queue) && !s.closed
    ensures var (s1, r1) := AdvanceBy(s, a, true);
            && r1.Ok? && Unique(s1.queue)
            && AdvanceBy(s1, b, true).1.Ok?
            && AdvanceBy(s, a + b, true).1 == Ok(r1.value + AdvanceBy(s1, b, true).1.value)
            && SameButTrace(AdvanceBy(s1, b, true).0, AdvanceBy(s, a + b, true).0)
  {
    hide AdvanceBy, Sorted, DueBy;
    var s1 := AdvanceBy(s, a, true).0;
    AdvanceRuns(s, a);
    AdvanceRuns(s1, b);
    AdvanceRuns(s, a + b);
    DueSplits(s.queue, s.paused, s.tick + a, b);
    var first := DueBy(s.queue, s.paused, s.tick + a);
    SortedSplits(first, DueBy(s1.queue, s.paused, s.tick + a + b));
  }

  lemma SubsetIsSmaller(a: set<Entry>, b: set<Entry>)
    requires a <= b
    ensures |a| <= |b|
    decreases |b|
  {
    if a != {} {
      var x :| x in a;
      SubsetIsSmaller(a - {x}, b - {x});
    }
  }

  lemma {:induction false} RunKeepsCapacity(s: Sched, dueOnly: bool, n: nat)
    requires Unique(s.queue)
    ensures RunMany(s, dueOnly, n).0.capacity == s.capacity
    decreases n
  {
    hide Least, Sched.Ready;
    if n > 0 && s.RunOne(dueOnly).1.Some? {
      RunKeepsCapacity(s.RunOne(dueOnly).0, dueOnly, n - 1);
    }
  }

  lemma DueSplits(q: set<Entry>, paused: set<StageKind>, t: nat, b: nat)
    ensures var first := DueBy(q, paused, t);
            var second := DueBy(q - first, paused, t + b);
            && DueBy(q, paused, t + b) == first + second
            && first + second <= q
            && q - first - second == q - (first + second)
            && forall x, y :: x in first && y in second ==> Before(x, y)
  {
  }

  // -------------------------------------------------------- any callbacks

  /** What the owner or a running callback may do; the calls a callback makes follow the run
      of its action. `ClockOp` moves the shared clock from outside. */
  datatype Op =
    | ScheduleOp(delay: nat, stage: Option<StageKind>)
    | PauseOp(kind: StageKind)
    | ResumeOp(kind: StageKind)
    | AdvanceOp(ticks: nat)
    | ClockOp(ticks: nat)
    | RunOp(dueOnly: bool)
    | CloseOp

  datatype Execution = Execution(entry: Entry, tick: nat)

  /** The scheduler, all entries it ever made, those it ran in order, those a close dropped. */
  datatype History = History(sched: Sched, issued: set<Entry>, executed: seq<Execution>, dropped: set<Entry>)

  ghost function Step(h: History, op: Op): History
    requires Unique(h.sched.queue)
  {
    var s := h.sched;
    match op
    case ScheduleOp(delay, stage) =>
      var (s', r) := s.Schedule(delay, stage);
      h.(sched := s', issued := if r.Ok? then h.issued + {r.value} else h.issued)
    case PauseOp(kind) => h.(sched := s.Pause(kind).0)
    case ResumeOp(kind) => h.(sched := s.Resume(kind).0)
    case AdvanceOp(ticks) => if s.closed then h else h.(sched := s.AdvanceTo(s.tick + ticks))
    case ClockOp(ticks) => h.(sched := s.(tick := s.tick + ticks))
    case RunOp(dueOnly) =>
      var (s', e) := s.RunOne(dueOnly);
      if s.closed || e.None? then h
      else h.(sched := s', executed := h.executed + [Execution(e.value, s'.tick)])
    case CloseOp => h.(sched := s.Close(), dropped := h.dropped + s.queue)
  }

  ghost predicate InQueueOrder(a: Entry, b: Entry, everyStage: bool) {
    everyStage || a.stage == b.stage ==> Before(a, b)
  }

  /** Executed entries of one stage (or, `everyStage`, of all) are in strictly increasing
      order, before everything of that stage still queued. */
  ghost predicate Ordered(h: History, everyStage: bool) {
    && (forall i, j :: 0 <= i < j < |h.executed| ==>
          InQueueOrder(h.executed[i].entry, h.executed[j].entry, everyStage))
    && (forall i, e :: 0 <= i < |h.executed| && e in h.sched.queue ==>
          InQueueOrder(h.executed[i].entry, e, everyStage))
    && (everyStage ==> h.sched.paused == {})
  }

  /** No action before its due tick, and never ahead of the clock. */
  ghost predicate OnTime(h: History) {
    forall i :: 0 <= i < |h.executed| ==>
      && h.executed[i].entry.due <= h.executed[i].tick <= h.sched.tick
      && h.executed[i].entry.sequence < h.sched.nextSequence
  }

  /** Every entry ever made is queued, executed once, or dropped by a close. */
  ghost predicate Partition(issued: set<Entry>, queue: set<Entry>, executed: seq<Execution>, dropped: set<Entry>) {
    && queue + dropped <= issued && queue !! dropped
    && |issued| == |queue| + |dropped| + |executed|
    && (forall i :: 0 <= i < |executed| ==>
          && executed[i].entry in issued
          && executed[i].entry !in queue && executed[i].entry !in dropped)
    && forall i, j :: 0 <= i < j < |executed| ==> executed[i].entry != executed[j].entry
  }

  /** Sequence numbers are handed out once each, without gaps. */
  ghost predicate Numbered(issued: set<Entry>, next: nat) {
    Unique(issued) && |issued| == next && forall e :: e in issued ==> e.sequence < next
  }

  ghost predicate Accounted(h: History) {
    && Partition(h.issued, h.sched.queue, h.executed, h.dropped)
    && Numbered(h.issued, h.sched.nextSequence)
    && |h.sched.queue| <= h.sched.capacity
    && (h.sched.closed ==> h.sched.queue == {})
  }

  lemma PartitionAdds(issued: set<Entry>, queue: set<Entry>, executed: seq<Execution>, dropped: set<Entry>, e: Entry)
    requires Partition(issued, queue, executed, dropped) && e !in issued
    ensures Partition(issued + {e}, queue + {e}, executed, dropped)
  {
    assert |issued + {e}| == |issued| + 1 && |queue + {e}| == |queue| + 1;
  }

  lemma PartitionRuns(issued: set<Entry>, queue: set<Entry>, executed: seq<Execution>, dropped: set<Entry>,
                      x: Execution)
    requires Partition(issued, queue, executed, dropped) && x.entry in queue
    ensures Partition(issued, queue - {x.entry}, executed + [x], dropped)
    ensures |queue - {x.entry}| == |queue| - 1
  {
  }

  lemma PartitionDrops(issued: set<Entry>, queue: set<Entry>, executed: seq<Execution>, dropped: set<Entry>)
    requires Partition(issued, queue, executed, dropped)
    ensures Partition(issued, {}, executed, dropped + queue)
  {
    assert |dropped + queue| == |dropped| + |queue|;
  }

  lemma NumberedAdds(issued: set<Entry>, next: nat, e: Entry)
    requires Numbered(issued, next) && e.sequence == next
    ensures e !in issued && Numbered(issued + {e}, next + 1)
  {
  }

  ghost predicate Inv(h: History) { Accounted(h) && OnTime(h) }

  lemma QueueIsUnique(h: History)
    requires Accounted(h)
    ensures Unique(h.sched.queue)
    ensures forall e :: e in h.sched.queue ==> e.sequence < h.sched.nextSequence
  {
  }

  lemma ScheduleKeepsOrder(h: History, delay: nat, stage: Option<StageKind>, everyStage: bool)
    requires Inv(h) && Ordered(h, everyStage)
    requires Unique(h.sched.queue)
    ensures Ordered(Step(h, ScheduleOp(delay, stage)), everyStage)
  {
    hide Accounted, Unique;
  }

  lemma AtMostOneMore(q: set<Entry>, e: Entry)
    ensures |q + {e}| <= |q| + 1
  {
    assert e in q ==> q + {e} == q;
  }

  lemma ScheduleKeepsInv(h: History, delay: nat, stage: Option<StageKind>)
    requires Inv(h) && Unique(h.sched.queue)
    ensures Inv(Step(h, ScheduleOp(delay, stage)))
  {
    hide Accounted, OnTime, Unique, Before;
    var s := h.sched;
    var (s', r) := s.Schedule(delay, stage);
    var h' := Step(h, ScheduleOp(delay, stage));
    assert h' == h.(sched := s', issued := if r.Ok? then h.issued + {r.value} else h.issued);
    if r.Ok? {
      EntryIsAccounted(h, r.value, s');
      StillOnTime(h, h');
    } else {
      assert s' == s.(trace := s'.trace);
      TraceIsNotAccounted(h, s');
      StillOnTime(h, h');
    }
  }

  lemma EntryIsAccounted(h: History, e: Entry, s': Sched)
    requires Accounted(h) && e.sequence == h.sched.nextSequence && |h.sched.queue| + 1 <= h.sched.capacity
    requires s' == h.sched.(queue := h.sched.queue + {e}, nextSequence := h.sched.nextSequence + 1, trace := s'.trace)
    requires !h.sched.closed
    ensures Accounted(h.(sched := s', issued := h.issued + {e}))
  {
    hide Partition, Numbered;
    NumberedAdds(h.issued, h.sched.nextSequence, e);
    PartitionAdds(h.issued, h.sched.queue, h.executed, h.dropped, e);
    AtMostOneMore(h.sched.queue, e);
  }

  lemma TraceIsNotAccounted(h: History, s': Sched)
    requires Accounted(h) && s' == h.sched.(trace := s'.trace)
    ensures Accounted(h.(sched := s'))
  {
    hide Partition, Numbered;
  }

  lemma StillOnTime(h: History, h': History)
    requires OnTime(h) && h'.executed == h.executed
    requires h'.sched.tick >= h.sched.tick && h'.sched.nextSequence >= h.sched.nextSequence
    ensures OnTime(h')
  {
  }

  lemma RunKeepsOrder(h: History, dueOnly: bool, everyStage: bool)
    requires Unique(h.sched.queue) && Ordered(h, everyStage)
    ensures Ordered(Step(h, RunOp(dueOnly)), everyStage)
  {
    hide Least;
    var s := h.sched;
    if s.Ready(dueOnly) != {} {
      var e := Least(s.Ready(dueOnly));
      forall f | f in s.queue && f != e ensures InQueueOrder(e, f, everyStage) {
        if everyStage || f.stage == e.stage {
          assert s.Runnable(f);
        }
      }
    }
  }

  lemma ReadyIsUnique(s: Sched, dueOnly: bool)
    requires Unique(s.queue)
    ensures Unique(s.Ready(dueOnly)) && s.Ready(dueOnly) <= s.queue
  {
  }

  lemma RunKeepsInv(h: History, dueOnly: bool)
    requires Inv(h) && Unique(h.sched.queue)
    ensures Inv(Step(h, RunOp(dueOnly)))
  {
    hide Unique, Sched.Ready, Partition, Numbered, Sched.RunOne, Least;
    var s := h.sched;
    ReadyIsUnique(s, dueOnly);
    if s.Ready(dueOnly) == {} {
      NothingRuns(s, dueOnly, 0);
    } else {
      var e, s1 := Least(s.Ready(dueOnly)), s.RunOne(dueOnly).0;
      OneStep(s, dueOnly);
      QueueIsBelow(h, e);
      PartitionRuns(h.issued, s.queue, h.executed, h.dropped, Execution(e, s1.tick));
    }
  }

  lemma QueueIsBelow(h: History, e: Entry)
    requires Accounted(h) && e in h.sched.queue
    ensures e.sequence < h.sched.nextSequence
  {
  }

  lemma OtherKeeps(h: History, op: Op, everyStage: bool)
    requires Inv(h) && Ordered(h, everyStage) && (everyStage ==> !op.PauseOp?) && Unique(h.sched.queue)
    requires !op.ScheduleOp? && !op.RunOp?
    ensures Inv(Step(h, op)) && Ordered(Step(h, op), everyStage)
  {
    hide Before, Partition, Numbered, Unique, InQueueOrder;
    PartitionDrops(h.issued, h.sched.queue, h.executed, h.dropped);
  }

  lemma StepKeepsOrder(h: History, op: Op, everyStage: bool)
    requires Inv(h) && Ordered(h, everyStage) && (everyStage ==> !op.PauseOp?)
    ensures Unique(h.sched.queue)
    ensures Inv(Step(h, op)) && Ordered(Step(h, op), everyStage)
  {
    hide Ordered, OnTime, Step, Accounted, Unique;
    QueueIsUnique(h);
    match op
    case ScheduleOp(delay, stage) =>
      ScheduleKeepsInv(h, delay, stage);
      ScheduleKeepsOrder(h, delay, stage, everyStage);
    case RunOp(dueOnly) =>
      RunKeepsInv(h, dueOnly);
      RunKeepsOrder(h, dueOnly, everyStage);
    case _ => OtherKeeps(h, op, everyStage);
  }

  ghost function InitialHistory(capacity: nat, tick: nat): History {
    History(Sched(capacity, tick, 0, {}, {}, false, []), {}, [], {})
  }

  ghost function Run(capacity: nat, tick: nat, ops: seq<Op>): History
    decreases |ops|
  {
    if ops == [] then InitialHistory(capacity, tick)
    else
      var h := Run(capacity, tick, ops[..|ops| - 1]);
      if Unique(h.sched.queue) then Step(h, ops[|ops| - 1]) else h
  }

  lemma InitialIsOrdered(capacity: nat, tick: nat, everyStage: bool)
    ensures Inv(InitialHistory(capacity, tick)) && Ordered(InitialHistory(capacity, tick), everyStage)
  {
  }

  /** Over any run, callbacks included: per stage, actions run in strictly increasing (due
      tick, sequence) order, and over all stages if nothing is ever paused; none runs early;
      every action ever scheduled is queued, run once, or dropped by a close. */
  lemma {:induction false} RunIsOrdered(capacity: nat, tick: nat, ops: seq<Op>, everyStage: bool)
    requires everyStage ==> forall i :: 0 <= i < |ops| ==> !ops[i].PauseOp?
    ensures Inv(Run(capacity, tick, ops)) && Ordered(Run(capacity, tick, ops), everyStage)
    decreases |ops|
  {
    hide Ordered, Accounted, OnTime, Step;
    if ops == [] {
      InitialIsOrdered(capacity, tick, everyStage);
    } else {
      RunIsOrdered(capacity, tick, ops[..|ops| - 1], everyStage);
      StepKeepsOrder(Run(capacity, tick, ops[..|ops| - 1]), ops[|ops| - 1], everyStage);
    }
  }

  // ------------------------------------------- what was scheduled, what is traced

  lemma IssuesOne(h: History, op: Op, e: Entry)
    requires Unique(h.sched.queue) && e in Step(h, op).issued && e !in h.issued
    ensures op.ScheduleOp? && op.stage == e.stage && e.due == h.sched.tick + op.delay
    ensures e.sequence == h.sched.nextSequence && !h.sched.closed && |h.sched.queue| < h.sched.capacity
  {
    hide Least;
  }

  lemma IssuedStays(h: History, op: Op)
    requires Unique(h.sched.queue) && op.ScheduleOp?
    ensures !h.sched.closed && |h.sched.queue| < h.sched.capacity <==> h.sched.Schedule(op.delay, op.stage).1.Ok?
    ensures !h.sched.closed && |h.sched.queue| < h.sched.capacity ==>
              Entry(h.sched.tick + op.delay, h.sched.nextSequence, op.stage) in Step(h, op).sched.queue
  {
  }

  /** Every entry ever made comes from a schedule call on an open scheduler with room: due its
      delay after the clock of that call, of its stage, with the next number. */
  lemma {:induction false} ScheduledBy(capacity: nat, tick: nat, ops: seq<Op>, e: Entry) returns (i: nat)
    requires e in Run(capacity, tick, ops).issued
    ensures i < |ops| && ops[i].ScheduleOp? && ops[i].stage == e.stage
    ensures var s := Run(capacity, tick, ops[..i]).sched;
            && e.due == s.tick + ops[i].delay && e.sequence == s.nextSequence
            && !s.closed && |s.queue| < s.capacity
    decreases |ops|
  {
    hide Step, Unique;
    i := 0;
    if ops != [] {
      var init := ops[..|ops| - 1];
      var h := Run(capacity, tick, init);
      if e in h.issued {
        i := ScheduledBy(capacity, tick, init, e);
        assert init[..i] == ops[..i];
      } else {
        i := |ops| - 1;
        IssuesOne(h, ops[i], e);
      }
    }
  }

  /** The last pause or resume of this stage was a pause. */
  predicate LeftPaused(ops: seq<Op>, kind: StageKind)
    decreases |ops|
  {
    ops != []
    && (ops[|ops| - 1] == PauseOp(kind)
        || (ops[|ops| - 1] != ResumeOp(kind) && LeftPaused(ops[..|ops| - 1], kind)))
  }

  lemma StepPauses(h: History, op: Op, kind: StageKind)
    requires Unique(h.sched.queue) && (h.sched.closed ==> h.sched.paused == {})
    ensures var s, s' := h.sched, Step(h, op).sched;
            && (s'.closed <==> s.closed || op.CloseOp?) && (s'.closed ==> s'.paused == {})
            && (kind in s'.paused <==>
                  !s'.closed && (op == PauseOp(kind) || (kind in s.paused && op != ResumeOp(kind))))
  {
    hide Least, Sched.Ready;
  }

  /** Which stages are paused, exactly, after any run: those whose last pause or resume was a
      pause, none once closed; closed iff a close was called. */
  lemma {:induction false} PausedIff(capacity: nat, tick: nat, ops: seq<Op>, kind: StageKind)
    ensures var s := Run(capacity, tick, ops).sched;
            && (s.closed <==> CloseOp in ops) && (s.closed ==> s.paused == {})
            && (kind in s.paused <==> CloseOp !in ops && LeftPaused(ops, kind))
    decreases |ops|
  {
    hide Step, Unique, Inv, Ordered;
    if ops != [] {
      var init, op := ops[..|ops| - 1], ops[|ops| - 1];
      PausedIff(capacity, tick, init, kind);
      RunIsOrdered(capacity, tick, init, false);
      AccountedQueue(Run(capacity, tick, init));
      StepPauses(Run(capacity, tick, init), op, kind);
      assert ops == init + [op];
    }
  }

  /** What pausing and resuming answer after any run: an error iff a close was called, else
      whether the stage was not, or was, left paused; and one event is traced exactly when
      something changed. */
  lemma StageCallsAnswer(capacity: nat, tick: nat, ops: seq<Op>, kind: StageKind)
    ensures var s := Run(capacity, tick, ops).sched;
            var (p, paused) := s.Pause(kind);
            var (r, resumed) := s.Resume(kind);
            && (if CloseOp in ops then paused == resumed == ClosedError
                else paused == Ok(!LeftPaused(ops, kind)) && resumed == Ok(LeftPaused(ops, kind)))
            && p.trace == s.trace + (if paused == Ok(true) then [Event(s.tick, StagePaused, None, Some(kind))] else [])
            && r.trace
               == s.trace + (if resumed == Ok(true) then [Event(s.tick, StageResumed, None, Some(kind))] else [])
            && (paused != Ok(true) ==> p == s) && (resumed != Ok(true) ==> r == s)
  {
    hide Run, LeftPaused;
    PausedIff(capacity, tick, ops, kind);
    var s := Run(capacity, tick, ops).sched;
    assert s.trace + [] == s.trace;
  }

  lemma AccountedQueue(h: History)
    requires Inv(h)
    ensures Unique(h.sched.queue)
  {
    QueueIsUnique(h);
  }

  /** The executions a trace tells of. */
  function Told(trace: seq<Event>): seq<Execution>
    decreases |trace|
  {
    if trace == [] then []
    else
      var last := trace[|trace| - 1];
      Told(trace[..|trace| - 1])
      + if last.kind.ActionExecuted? && last.entry.Some? then [Execution(last.entry.value, last.tick)] else []
  }

  lemma ToldMore(trace: seq<Event>, e: Event)
    ensures Told(trace + [e])
            == Told(trace)
               + if e.kind.ActionExecuted? && e.entry.Some? then [Execution(e.entry.value, e.tick)] else []
  {
    assert (trace + [e])[..|trace|] == trace;
  }

  lemma StepTells(h: History, op: Op)
    requires Unique(h.sched.queue) && Told(h.sched.trace) == h.executed
    ensures Told(Step(h, op).sched.trace) == Step(h, op).executed
  {
    hide Least, Told, Sched.Ready;
    var h' := Step(h, op);
    if op.RunOp? {
      RunTells(h, op.dueOnly);
    } else if h'.sched.trace != h.sched.trace {
      var e := h'.sched.trace[|h.sched.trace|];
      assert h'.sched.trace == h.sched.trace + [e] && !e.kind.ActionExecuted?;
      ToldMore(h.sched.trace, e);
      assert h.executed + [] == h.executed;
    }
  }

  lemma RunTells(h: History, dueOnly: bool)
    requires Unique(h.sched.queue) && Told(h.sched.trace) == h.executed
    ensures Told(Step(h, RunOp(dueOnly)).sched.trace) == Step(h, RunOp(dueOnly)).executed
  {
    hide Least, Told;
    var s := h.sched;
    if !s.closed && s.RunOne(dueOnly).1.Some? {
      var e := s.RunOne(dueOnly).1.value;
      var moved := if dueOnly then s else s.AdvanceTo(e.due);
      if moved.trace != s.trace {
        ToldMore(s.trace, moved.trace[|s.trace|]);
        assert moved.trace == s.trace + [moved.trace[|s.trace|]];
        assert h.executed + [] == h.executed;
      }
      ToldMore(moved.trace, Event(moved.tick, ActionExecuted, Some(e), e.stage));
    }
  }

  /** The trace tells of exactly the executions there were, in order, each at its tick. */
  lemma {:induction false} TraceTellsTheRun(capacity: nat, tick: nat, ops: seq<Op>)
    ensures Told(Run(capacity, tick, ops).sched.trace) == Run(capacity, tick, ops).executed
    decreases |ops|
  {
    hide Step, Unique;
    if ops != [] {
      TraceTellsTheRun(capacity, tick, ops[..|ops| - 1]);
      var h := Run(capacity, tick, ops[..|ops| - 1]);
      if Unique(h.sched.queue) { StepTells(h, ops[|ops| - 1]); }
    }
  }

  // ---------------------------------------------- why AdvanceSplits says inert

  lemma Extend(capacity: nat, tick: nat, ops: seq<Op>, op: Op, h: History) returns (more: seq<Op>)
    requires Unique(Run(capacity, tick, ops).sched.queue) && h == Step(Run(capacity, tick, ops), op)
    ensures more == ops + [op] && Run(capacity, tick, more) == h
  {
    hide Step, Unique;
    more := ops + [op];
    assert more[..|more| - 1] == ops;
  }

  /** One action `e` queued alone and due: it is what a `run_due` step runs. */
  lemma RunsTheOnlyOne(h: History, e: Entry)
    requires h.sched.queue == {e} && e.due <= h.sched.tick && !h.sched.closed && e.stage.None?
    ensures Unique(h.sched.queue)
    ensures var h' := Step(h, RunOp(true));
            && h' == h.(sched := h'.sched, executed := h'.executed)
            && h'.sched == h.sched.(queue := {}, trace := h'.sched.trace)
            && |h'.executed| == |h.executed| + 1
  {
    hide Least;
    assert h.sched.Ready(true) == {e};
  }

  /** A callback that schedules one tick ahead sees a different clock when the advance is
      split, and then its action is due as well: two executions instead of one. */
  lemma SplitMattersToCallbacks() returns (once: seq<Op>, split: seq<Op>)
    ensures once == [ScheduleOp(1, None), AdvanceOp(2), RunOp(true), ScheduleOp(1, None), RunOp(true)]
    ensures split == [ScheduleOp(1, None), AdvanceOp(1), RunOp(true), ScheduleOp(1, None), RunOp(true),
                      AdvanceOp(1), RunOp(true)]
    ensures Run(9, 0, once).sched.tick == Run(9, 0, split).sched.tick == 2
    ensures |Run(9, 0, once).executed| == 1 && |Run(9, 0, split).executed| == 2
  {
    var b, c := Entry(3, 1, None), Entry(2, 1, None);
    once := OneScheduledOneRun(2);
    split := OneScheduledOneRun(1);
    NothingDue(Run(9, 0, once), b);
    NothingDue(Run(9, 0, split), c);
    once := Extend(9, 0, once, RunOp(true), Run(9, 0, once));
    split := Extend(9, 0, split, RunOp(true), Run(9, 0, split));
    var h := Run(9, 0, split);
    var h1 := h.(sched := h.sched.AdvanceTo(2));
    split := Extend(9, 0, split, AdvanceOp(1), h1);
    RunsTheOnlyOne(h1, c);
    split := Extend(9, 0, split, RunOp(true), Step(h1, RunOp(true)));
  }

  lemma NothingDue(h: History, e: Entry)
    requires h.sched.queue == {e} && e.due > h.sched.tick
    ensures Unique(h.sched.queue) && Step(h, RunOp(true)) == h
  {
    assert h.sched.Ready(true) == {};
  }

  lemma OneScheduled(t: nat) returns (ops: seq<Op>)
    requires t >= 1
    ensures ops == [ScheduleOp(1, None), AdvanceOp(t)]
    ensures var h := Run(9, 0, ops);
            && h.sched.queue == {Entry(1, 0, None)} && h.sched.tick == t && !h.sched.closed
            && h.executed == [] && h.sched.nextSequence == 1 && h.sched.capacity == 9
  {
    var none: seq<Op> := [];
    var h0 := InitialHistory(9, 0);
    var h1 := Step(h0, ScheduleOp(1, None));
    assert h1.sched.queue == {Entry(1, 0, None)};
    ops := Extend(9, 0, none, ScheduleOp(1, None), h1);
    ops := Extend(9, 0, ops, AdvanceOp(t), h1.(sched := h1.sched.AdvanceTo(t)));
  }

  lemma OneScheduledOneRun(t: nat) returns (ops: seq<Op>)
    requires t >= 1
    ensures ops == [ScheduleOp(1, None), AdvanceOp(t), RunOp(true), ScheduleOp(1, None)]
    ensures var h := Run(9, 0, ops);
            && h.sched.queue == {Entry(t + 1, 1, None)} && h.sched.tick == t && !h.sched.closed
            && |h.executed| == 1
  {
    hide Run, Sched.RunOne;
    ops := OneScheduled(t);
    var h2 := Run(9, 0, ops);
    RunsTheOnlyOne(h2, Entry(1, 0, None));
    var h3 := Step(h2, RunOp(true));
    ops := Extend(9, 0, ops, RunOp(true), h3);
    var h4 := Step(h3, ScheduleOp(1, None));
    assert h4.sched.queue == {Entry(t + 1, 1, None)};
    ops := Extend(9, 0, ops, ScheduleOp(1, None), h4);
  }
}
