/** The in-place scheduler of framework/realtime_fake_runtime.py, proved against the value
    model. `heapq` is not part of this model: all that is used of it is that it rearranges
    the list. Callbacks are not run here; what they may call is in FakeScheduler's runs. */
module FakeSchedulerClass {
  import opened Common
  import opened FakeScheduler

  ghost predicate NoRepeat(s: seq<Entry>) {
    forall e :: multiset(s)[e] <= 1
  }

  lemma NoRepeatIsDistinct(s: seq<Entry>, i: nat, j: nat)
    requires NoRepeat(s) && i < j < |s|
    ensures s[i] != s[j]
  {
    assert s == s[..i] + [s[i]] + s[i + 1..j] + [s[j]] + s[j + 1..];
    assert multiset(s)[s[i]] <= 1;
  }

  lemma SameElements(s: seq<Entry>, t: seq<Entry>)
    requires multiset(s) == multiset(t)
    ensures Elements(s) == Elements(t) && |s| == |t| && (NoRepeat(s) ==> NoRepeat(t))
  {
    assert forall e :: e in s <==> e in multiset(s);
    assert forall e :: e in t <==> e in multiset(t);
    assert |multiset(s)| == |s| && |multiset(t)| == |t|;
  }

  lemma {:induction false} ElementCount(s: seq<Entry>)
    requires NoRepeat(s)
    ensures |Elements(s)| == |s|
    decreases |s|
  {
    if s != [] {
      var e, rest := s[0], s[1..];
      assert s == [e] + rest;
      assert multiset(s) == multiset{e} + multiset(rest);
      assert NoRepeat(rest) by {
        assert forall f :: multiset(rest)[f] <= multiset(s)[f];
      }
      assert e !in rest by { assert multiset(s)[e] <= 1; }
      ElementCount(rest);
      assert Elements(s) == Elements(rest) + {e};
    }
  }

  lemma PushElements(s: seq<Entry>, e: Entry)
    requires NoRepeat(s) && e !in s
    ensures NoRepeat(s + [e]) && Elements(s + [e]) == Elements(s) + {e}
  {
    assert multiset(s + [e]) == multiset(s) + multiset{e};
    assert forall f :: f in s <==> multiset(s)[f] > 0;
  }

  lemma UniqueAdds(q: set<Entry>, e: Entry, next: nat)
    requires Unique(q) && e.sequence == next && forall f :: f in q ==> f.sequence < next
    ensures e !in q && Unique(q + {e}) && forall f :: f in q + {e} ==> f.sequence < next + 1
  {
  }

  /** The list with the last entry moved into position `i`, as `_pop_next_runnable` makes it. */
  function FillHole(s: seq<Entry>, i: nat): seq<Entry>
    requires i < |s|
  {
    var init := s[..|s| - 1];
    if i < |init| then init[i := s[|s| - 1]] else init
  }

  lemma FillHoleMultiset(s: seq<Entry>, i: nat)
    requires i < |s|
    ensures multiset(FillHole(s, i)) + multiset{s[i]} == multiset(s)
  {
    var init, last := s[..|s| - 1], s[|s| - 1];
    assert s == init + [last];
    if i < |init| {
      assert init == init[..i] + [s[i]] + init[i + 1..];
      assert init[i := last] == init[..i] + [last] + init[i + 1..];
    }
  }

  lemma FillHoleElements(s: seq<Entry>, i: nat)
    requires NoRepeat(s) && i < |s|
    ensures NoRepeat(FillHole(s, i)) && Elements(FillHole(s, i)) == Elements(s) - {s[i]}
  {
    var r := FillHole(s, i);
    hide FillHole;
    FillHoleMultiset(s, i);
    assert forall f :: multiset(s)[f] == multiset(r)[f] + multiset{s[i]}[f];
    assert multiset(s)[s[i]] <= 1;
    assert forall f :: f in r <==> multiset(r)[f] > 0;
    assert forall f :: f in s <==> multiset(s)[f] > 0;
  }

  class DeterministicFakeClock {
    var tick: nat

    constructor (initial: nat)
      ensures tick == initial
    {
      tick := initial;
    }

    method AdvanceBy(ticks: nat) returns (now: nat)
      modifies this
      ensures now == tick == old(tick) + ticks
    {
      tick := tick + ticks;
      now := tick;
    }

    /** Moving backwards raises. */
    method AdvanceTo(t: nat) returns (ok: bool)
      modifies this
      ensures ok <==> old(tick) <= t
      ensures tick == if ok then t else old(tick)
    {
      ok := tick <= t;
      if ok { tick := t; }
    }
  }

  class DeterministicFakeScheduler {
    const clock: DeterministicFakeClock
    const maxQueueSize: nat
    var queue: seq<Entry>
    var paused: set<StageKind>
    var trace: seq<Event>
    var nextSequence: nat
    var closed: bool

    ghost function Value(): Sched
      reads this, clock
    {
      Sched(maxQueueSize, clock.tick, nextSequence, Elements(queue), paused, closed, trace)
    }

    ghost predicate Valid()
      reads this
    {
      && NoRepeat(queue) && Unique(Elements(queue))
      && forall e :: e in Elements(queue) ==> e.sequence < nextSequence
    }

    constructor (clock: DeterministicFakeClock, maxQueueSize: nat)
      ensures Valid() && this.clock == clock && this.maxQueueSize == maxQueueSize
      ensures Value() == Sched(maxQueueSize, clock.tick, 0, {}, {}, false, [])
    {
      this.clock, this.maxQueueSize := clock, maxQueueSize;
      queue, paused, trace, nextSequence, closed := [], {}, [], 0, false;
    }

    /** `heapq.heapify`: some rearrangement of the list. */
    static method Heapify(list: seq<Entry>) returns (heap: seq<Entry>)
      ensures multiset(heap) == multiset(list)
    {
      heap := list;
    }

    /** `heapq.heappush` of a new entry. */
    static method Push(list: seq<Entry>, e: Entry) returns (heap: seq<Entry>)
      requires NoRepeat(list) && e !in Elements(list)
      ensures NoRepeat(heap) && Elements(heap) == Elements(list) + {e} && |heap| == |list| + 1
    {
      PushElements(list, e);
      heap := Heapify(list + [e]);
      SameElements(list + [e], heap);
    }

    method Record(kind: TraceKind, entry: Option<Entry>, stage: Option<StageKind>)
      requires Valid()
      modifies this`trace
      ensures Valid() && Value() == old(Value()).Record(kind, entry, stage)
    {
      trace := trace + [Event(clock.tick, kind, entry, stage)];
    }

    method Schedule(delay: nat, stage: Option<StageKind>) returns (r: Answer<Entry>)
      requires Valid()
      modifies this
      ensures Valid() && (Value(), r) == old(Value()).Schedule(delay, stage)
      ensures |queue| == |old(queue)| + if r.Ok? then 1 else 0
    {
      hide NoRepeat, Elements, Unique;
      ElementCount(queue);
      if closed { return ClosedError; }
      if |queue| + 1 > maxQueueSize {
        Record(QueueOverflow, None, None);
        return OverflowError;
      }
      var e := Entry(clock.tick + delay, nextSequence, stage);
      UniqueAdds(Elements(queue), e, nextSequence);
      nextSequence := nextSequence + 1;
      var heap := Push(queue, e);
      queue := heap;
      Record(ActionScheduled, Some(e), stage);
      r := Ok(e);
    }

    method PauseStage(stage: StageKind) returns (r: Answer<bool>)
      requires Valid()
      modifies this
      ensures Valid() && (Value(), r) == old(Value()).Pause(stage)
    {
      if closed { return ClosedError; }
      if stage in paused { return Ok(false); }
      paused := paused + {stage};
      Record(StagePaused, None, Some(stage));
      r := Ok(true);
    }

    method ResumeStage(stage: StageKind) returns (r: Answer<bool>)
      requires Valid()
      modifies this
      ensures Valid() && (Value(), r) == old(Value()).Resume(stage)
    {
      if closed { return ClosedError; }
      if stage !in paused { return Ok(false); }
      paused := paused - {stage};
      Record(StageResumed, None, Some(stage));
      r := Ok(true);
    }

    method AdvanceTo(t: nat)
      requires Valid()
      modifies this`trace, clock
      ensures Valid() && Value() == old(Value()).AdvanceTo(t)
    {
      if t <= clock.tick { return; }
      var moved := clock.AdvanceTo(t);
      Record(ClockAdvanced, None, None);
    }

    method Close()
      requires Valid()
      modifies this
      ensures Valid() && Value() == old(Value()).Close()
    {
      if closed { return; }
      closed := true;
      queue := [];
      paused := {};
      Record(ControllerClosed, None, None);
    }

    /** The scan of `_pop_next_runnable` keeps the best eligible position so far. */
    method FindNextRunnable(dueOnly: bool) returns (best: Option<nat>)
      requires Valid()
      ensures best.None? ==> Value().Ready(dueOnly) == {}
      ensures best.Some? ==>
                && best.value < |queue| && queue[best.value] in Value().Ready(dueOnly)
                && Unique(Value().Ready(dueOnly)) && queue[best.value] == Least(Value().Ready(dueOnly))
    {
      hide Least;
      ghost var s := Value();
      best := None;
      var i := 0;
      while i < |queue|
        invariant i <= |queue|
        invariant best.Some? ==> best.value < i && s.Eligible(queue[best.value], dueOnly)
        invariant forall k :: 0 <= k < i && s.Eligible(queue[k], dueOnly) ==>
                    best.Some? && (k == best.value || Before(queue[best.value], queue[k]))
      {
        var e := queue[i];
        if (!dueOnly || e.due <= clock.tick) && (e.stage.None? || e.stage.value !in paused) {
          if best.None? || Before(e, queue[best.value]) {
            best := Some(i);
          } else {
            NoRepeatIsDistinct(queue, best.value, i);
            assert queue[i] in Elements(queue) && queue[best.value] in Elements(queue);
          }
        }
        i := i + 1;
      }
      if best.Some? {
        assert queue[best.value] in s.Ready(dueOnly);
        LeastIs(s.Ready(dueOnly), queue[best.value]);
      }
    }

    method PopNextRunnable(dueOnly: bool) returns (r: Option<Entry>)
      requires Valid()
      modifies this`queue
      ensures Valid()
      ensures r.None? <==> old(Value()).Ready(dueOnly) == {}
      ensures r.None? ==> Value() == old(Value())
      ensures r.Some? ==>
                && r.value == Least(old(Value()).Ready(dueOnly))
                && Value() == old(Value()).(queue := old(Value()).queue - {r.value})
    {
      hide Elements, Least, Sched.Eligible;
      var best := FindNextRunnable(dueOnly);
      if best.None? { return None; }
      r := Some(queue[best.value]);
      FillHoleElements(queue, best.value);
      var last := queue[|queue| - 1];
      var rest := queue[..|queue| - 1];
      if best.value < |rest| {
        var heap := Heapify(rest[best.value := last]);
        SameElements(rest[best.value := last], heap);
        rest := heap;
      }
      queue := rest;
    }

    /** `run_next` up to the action's callback. */
    method RunNext() returns (r: Answer<Option<Entry>>)
      requires Valid()
      modifies this, clock
      ensures Valid()
      ensures old(closed) ==> r == ClosedError && Value() == old(Value())
      ensures !old(closed) ==> r.Ok? && (Value(), r.value) == old(Value()).RunOne(false)
    {
      if closed { return ClosedError; }
      var e := PopNextRunnable(false);
      if e.Some? {
        AdvanceTo(e.value.due);
        Record(ActionExecuted, e, e.value.stage);
      }
      r := Ok(e);
    }

    /** With callbacks that leave the scheduler alone. */
    method RunDue(limit: Option<nat>) returns (r: Answer<seq<Entry>>)
      requires Valid()
      modifies this, clock
      ensures Valid() && Unique(old(Value()).queue) && (Value(), r) == FakeScheduler.RunDue(old(Value()), limit)
    {
      if closed { return ClosedError; }
      if limit == Some(0) { return BadCount; }
      ElementCount(queue);
      ghost var s := Value();
      ghost var n: nat := if limit.Some? then limit.value else |s.queue|;
      var executed: seq<Entry> := [];
      UnfoldsStarts(s, true, n);
      while limit.None? || |executed| < limit.value
        invariant Valid()
        invariant limit.None? ==> |queue| + |executed| == n
        invariant limit.Some? ==> |executed| <= n
        invariant Unfolds(s, true, n, Value(), executed)
        decreases |queue|
      {
        ghost var before := Value();
        ElementCount(queue);
        var e := PopNextRunnable(true);
        if e.None? {
          UnfoldsStops(s, true, n, before, executed);
          return Ok(executed);
        }
        Record(ActionExecuted, e, e.value.stage);
        ElementCount(queue);
        UnfoldsStep(s, true, n, before, executed);
        executed := executed + [e.value];
      }
      UnfoldsStops(s, true, n, Value(), executed);
      r := Ok(executed);
    }

    method AdvanceBy(ticks: nat, runDue: bool) returns (r: Answer<seq<Entry>>)
      requires Valid()
      modifies this, clock
      ensures Valid() && Unique(old(Value()).queue)
      ensures (Value(), r) == FakeScheduler.AdvanceBy(old(Value()), ticks, runDue)
    {
      if closed { return ClosedError; }
      if ticks > 0 { AdvanceTo(clock.tick + ticks); }
      if runDue { r := RunDue(None); } else { r := Ok([]); }
    }

    method RunUntilIdle(limit: nat) returns (r: Answer<seq<Entry>>)
      requires Valid()
      modifies this, clock
      ensures Valid() && Unique(old(Value()).queue)
      ensures (Value(), r) == FakeScheduler.RunUntilIdle(old(Value()), limit)
    {
      if closed { return ClosedError; }
      if limit == 0 { return BadCount; }
      ghost var s := Value();
      var executed: seq<Entry> := [];
      UnfoldsStarts(s, false, limit);
      while |executed| < limit
        invariant Valid() && !closed
        invariant |executed| <= limit
        invariant Unfolds(s, false, limit, Value(), executed)
        decreases limit - |executed|
      {
        ghost var before := Value();
        var e := RunNext();
        if e.value.None? {
          UnfoldsStops(s, false, limit, before, executed);
          return Ok(executed);
        }
        UnfoldsStep(s, false, limit, before, executed);
        executed := executed + [e.value.value];
      }
      UnfoldsStops(s, false, limit, Value(), executed);
      var left := exists e :: e in queue && (e.stage.None? || e.stage.value !in paused);
      assert left <==> Value().Ready(false) != {} by {
        assert forall e :: e in Value().Ready(false) <==> e in queue && Value().Runnable(e);
      }
      r := if left then LimitExceeded else Ok(executed);
    }

    /** All `copies` or none: it overflows exactly when they do not all fit, and then only the
        trace has changed; otherwise their due ticks and sequence numbers are consecutive. */
    method InjectDuplicateTerminal(stage: StageKind, copies: nat, delay: nat, interval: nat)
      returns (r: Answer<seq<Entry>>)
      requires Valid()
      modifies this
      ensures Valid()
      ensures copies < 2 ==> r == BadCount
      ensures copies >= 2 && old(closed) ==> r == ClosedError
      ensures copies >= 2 && !old(closed) ==>
                (r.OverflowError? <==> |old(queue)| + copies > maxQueueSize) && (r.OverflowError? || r.Ok?)
      ensures !r.Ok? ==> SameButTrace(old(Value()), Value())
      ensures r.Ok? ==>
                && |r.value| == copies
                && (forall k :: 0 <= k < copies ==>
                      r.value[k] == Entry(clock.tick + delay + k * interval, old(nextSequence) + k, Some(stage)))
                && SameButTrace(WithEntries(old(Value()), r.value), Value())
    {
      if copies < 2 { return BadCount; }
      if closed { return ClosedError; }
      ElementCount(queue);
      if |queue| + copies > maxQueueSize {
        Record(QueueOverflow, None, None);
        return OverflowError;
      }
      Record(DuplicateTerminal, None, Some(stage));
      ghost var s := Value();
      var made := ScheduleCopies(stage, copies, delay, interval);
      CopiesAt(s, stage, copies, delay, interval);
      r := Ok(made);
    }

    method ScheduleCopies(stage: StageKind, copies: nat, delay: nat, interval: nat) returns (made: seq<Entry>)
      requires Valid() && !closed && |queue| + copies <= maxQueueSize
      modifies this
      ensures Valid() && made == Copies(old(Value()), stage, copies, delay, interval)
      ensures SameButTrace(WithEntries(old(Value()), made), Value())
    {
      hide Elements, NoRepeat, Unique;
      ghost var s := Value();
      made := [];
      NoEntries(s);
      for k := 0 to copies
        invariant Valid() && !closed && |queue| == |old(queue)| + k
        invariant made == Copies(s, stage, k, delay, interval)
        invariant SameButTrace(WithEntries(s, made), Value())
      {
        ElementCount(queue);
        var e := Schedule(delay + k * interval, Some(stage));
        OneMore(s, made, e.value);
        made := made + [e.value];
      }
    }
  }

  /** The first `k` copies of a terminal, scheduled from `s`. */
  function Copies(s: Sched, stage: StageKind, k: nat, delay: nat, interval: nat): (c: seq<Entry>)
    ensures |c| == k
  {
    if k == 0 then []
    else Copies(s, stage, k - 1, delay, interval)
         + [Entry(s.tick + (delay + (k - 1) * interval), s.nextSequence + (k - 1), Some(stage))]
  }

  lemma {:induction false} CopiesAt(s: Sched, stage: StageKind, k: nat, delay: nat, interval: nat)
    ensures forall j :: 0 <= j < k ==>
              Copies(s, stage, k, delay, interval)[j]
              == Entry(s.tick + delay + j * interval, s.nextSequence + j, Some(stage))
  {
    if k > 0 { CopiesAt(s, stage, k - 1, delay, interval); }
  }

  function WithEntries(s: Sched, made: seq<Entry>): Sched {
    s.(queue := s.queue + Elements(made), nextSequence := s.nextSequence + |made|)
  }

  lemma NoEntries(s: Sched)
    ensures WithEntries(s, []) == s
  {
    assert Elements([]) == {};
  }

  lemma OneMore(s: Sched, made: seq<Entry>, e: Entry)
    ensures WithEntries(s, made + [e])
            == s.(queue := s.queue + Elements(made) + {e}, nextSequence := s.nextSequence + |made| + 1)
  {
    assert Elements(made + [e]) == Elements(made) + {e};
  }

  /** Executing `done` led from `s` to `now`, the first part of a run of at most `n`. */
  ghost predicate Unfolds(s: Sched, dueOnly: bool, n: nat, now: Sched, done: seq<Entry>) {
    && Unique(s.queue) && Unique(now.queue) && |done| <= n
    && var rest := RunMany(now, dueOnly, n - |done|);
       RunMany(s, dueOnly, n) == (rest.0, done + rest.1)
  }

  lemma UnfoldsStep(s: Sched, dueOnly: bool, n: nat, now: Sched, done: seq<Entry>)
    requires Unfolds(s, dueOnly, n, now, done) && |done| < n && now.Ready(dueOnly) != {}
    ensures var (next, e) := now.RunOne(dueOnly);
            Unfolds(s, dueOnly, n, next, done + [e.value])
  {
    hide Least, Sched.Ready;
    var (next, e) := now.RunOne(dueOnly);
    var rest := RunMany(next, dueOnly, n - |done| - 1).1;
    assert done + ([e.value] + rest) == (done + [e.value]) + rest;
  }

  lemma UnfoldsStarts(s: Sched, dueOnly: bool, n: nat)
    requires Unique(s.queue)
    ensures Unfolds(s, dueOnly, n, s, [])
  {
    hide RunMany;
    assert [] + RunMany(s, dueOnly, n).1 == RunMany(s, dueOnly, n).1;
  }

  lemma UnfoldsStops(s: Sched, dueOnly: bool, n: nat, now: Sched, done: seq<Entry>)
    requires Unfolds(s, dueOnly, n, now, done) && (now.Ready(dueOnly) == {} || |done| == n)
    ensures RunMany(s, dueOnly, n) == (now, done)
  {
    assert done + [] == done;
  }
}
