/** `TextChatSession` of framework/facade.py in its imperative form, for a host in one thread:
    it consumes a turn to its end and may interrupt or close while a chunk is in its hands.
    What other threads and callbacks can do is in TextChatTurn. */
module TextChatSession {
  import opened Common
  import opened TextChatTurn

  datatype HostAct = Continues | Interrupts | Closes

  /** One answer of the model, and what the host does if it is handed to it. */
  datatype Answer = Answer(text: string, host: HostAct)

  /** The chunks a turn delivers: the visible ones, up to the one the host reacts to. */
  function Delivered(answers: seq<Answer>): seq<string> {
    if answers == [] then []
    else if answers[0].text == "" then Delivered(answers[1..])
    else [answers[0].text] + if answers[0].host.Continues? then Delivered(answers[1..]) else []
  }

  /** How the turn ends. An interrupt takes effect only if the model sends something more. */
  function ExitOf(answers: seq<Answer>, raises: bool): Exit {
    if answers == [] then (if raises then ByFailure else ByCompletion)
    else if answers[0].text == "" || answers[0].host.Continues? then ExitOf(answers[1..], raises)
    else if answers[0].host.Closes? then ByClose
    else if answers[1..] == [] then (if raises then ByFailure else ByCompletion)
    else ByInterrupt
  }

  /** The host reacts to this answer. */
  predicate Reacts(a: Answer) { a.text != "" && !a.host.Continues? }

  /** The first `k` answers are looked at: all, or up to the first one the host reacts to. */
  ghost predicate LooksAt(answers: seq<Answer>, k: nat) {
    && k <= |answers|
    && (forall i :: 0 <= i < k - 1 ==> !Reacts(answers[i]))
    && (k < |answers| ==> k > 0 && Reacts(answers[k - 1]))
  }

  function Texts(answers: seq<Answer>): seq<string> {
    if answers == [] then []
    else Texts(answers[..|answers| - 1]) + Visible(answers[|answers| - 1])
  }

  function Visible(a: Answer): seq<string> { if a.text == "" then [] else [a.text] }

  lemma {:induction false} TextsFront(answers: seq<Answer>)
    requires answers != []
    ensures Texts(answers) == Visible(answers[0]) + Texts(answers[1..])
    decreases |answers|
  {
    var init := answers[..|answers| - 1];
    if init == [] {
      assert answers[1..] == [];
      assert [] + Visible(answers[0]) == Visible(answers[0]) + [];
    } else {
      TextsFront(init);
      assert init[1..] == answers[1..][..|answers| - 2];
      ConcatAssoc(Visible(answers[0]), Texts(init[1..]), Visible(answers[|answers| - 1]));
    }
  }

  /** What a turn delivers and how it ends, without the recursion: the visible texts of the
      answers looked at; a close by the host ends it as closed, an interrupt as interrupted if
      the model sends anything more, and otherwise it fails or completes as the model does. */
  lemma {:induction false} WhatIsDelivered(answers: seq<Answer>, raises: bool) returns (k: nat)
    ensures LooksAt(answers, k) && Delivered(answers) == Texts(answers[..k])
    ensures var reacted := k > 0 && Reacts(answers[k - 1]);
            ExitOf(answers, raises)
            == if reacted && answers[k - 1].host.Closes? then ByClose
               else if reacted && answers[k - 1].host.Interrupts? && k < |answers| then ByInterrupt
               else if raises then ByFailure else ByCompletion
  {
    if answers == [] {
      k := 0;
      assert answers[..k] == [];
    } else if Reacts(answers[0]) {
      k := 1;
      TextsFront(answers[..1]);
      assert answers[..1][1..] == [];
    } else {
      var rest := WhatIsDelivered(answers[1..], raises);
      k := rest + 1;
      LooksFurther(answers, rest);
      TextsFront(answers[..k]);
      hide LooksAt, Texts;
      assert answers[..k][1..] == answers[1..][..rest];
    }
  }

  lemma LooksFurther(answers: seq<Answer>, rest: nat)
    requires answers != [] && !Reacts(answers[0]) && LooksAt(answers[1..], rest)
    ensures LooksAt(answers, rest + 1)
  {
    hide Reacts;
    forall i | 1 <= i < rest ensures !Reacts(answers[i]) {
      assert answers[i] == answers[1..][i - 1];
    }
  }

  /** What has been told since `before`: the script for `delivered` and `tail`, with `n`
      terminal events, whoever they came from. */
  ghost predicate Told(before: seq<Event>, events: seq<Event>, delivered: seq<string>, tail: seq<Event>, n: nat) {
    && before <= events
    && Generated(events[|before|..]) == Preamble(delivered) + tail
    && Terminals(events[|before|..]) == n
  }

  lemma ToldMore(before: seq<Event>, events: seq<Event>, delivered: seq<string>, tail: seq<Event>, n: nat, e: Event)
    requires Told(before, events, delivered, tail, n)
    ensures Told(before, events + [e], delivered, if OfGenerator(e) then tail + [e] else tail,
                 if IsTerminal(e) then n + 1 else n)
    ensures tail == [] ==> tail + [e] == [e]
  {
    hide Generated, Preamble, Terminals;
    assert (events + [e])[|before|..] == events[|before|..] + [e];
    GeneratedGrows(events[|before|..], e);
    ConcatAssoc(Preamble(delivered), tail, [e]);
    NothingAdded(events[|before|..]);
  }

  lemma ToldDelta(before: seq<Event>, events: seq<Event>, delivered: seq<string>, n: nat, chunk: string)
    requires Told(before, events, delivered, [], n)
    ensures Told(before, events + [ResponseDelta(|delivered|, chunk)], delivered + [chunk], [], n)
  {
    hide Generated, Preamble, Terminals;
    ToldMore(before, events, delivered, [], n, ResponseDelta(|delivered|, chunk));
    DeltasGrow(delivered, chunk);
    PreambleFacts(delivered + [chunk]);
    assert [] + [ResponseDelta(|delivered|, chunk)] == [ResponseDelta(|delivered|, chunk)];
  }

  lemma ToldOpening(before: seq<Event>)
    ensures Told(before, before + [TurnStarted] + [ResponseStarted], [], [], 0)
  {
    var events := before + [TurnStarted] + [ResponseStarted];
    assert events[|before|..] == [TurnStarted] + [ResponseStarted];
    GeneratedGrows([], TurnStarted);
    GeneratedGrows([TurnStarted], ResponseStarted);
    assert [] + [TurnStarted] == [TurnStarted];
    PreambleFacts([]);
  }

  /** How far the turn has got: `rest` is still to come, and the flags the host has set. */
  ghost predicate OnTrack(answers: seq<Answer>, rest: seq<Answer>, raises: bool, delivered: seq<string>,
                          interrupted: bool, closed: bool)
  {
    if !interrupted then
      !closed && Delivered(answers) == delivered + Delivered(rest) && ExitOf(answers, raises) == ExitOf(rest, raises)
    else
      && Delivered(answers) == delivered
      && ExitOf(answers, raises) == (if closed then ByClose
                                     else if rest != [] then ByInterrupt
                                     else if raises then ByFailure else ByCompletion)
  }

  lemma TrackStarts(answers: seq<Answer>, raises: bool)
    ensures OnTrack(answers, answers, raises, [], false, false)
  {
    assert [] + Delivered(answers) == Delivered(answers);
  }

  lemma TrackStep(answers: seq<Answer>, rest: seq<Answer>, raises: bool, delivered: seq<string>)
    requires OnTrack(answers, rest, raises, delivered, false, false) && rest != []
    ensures var a := rest[0];
            if a.text == "" then OnTrack(answers, rest[1..], raises, delivered, false, false)
            else OnTrack(answers, rest[1..], raises, delivered + [a.text], !a.host.Continues?, a.host.Closes?)
  {
    var a := rest[0];
    if a.text != "" {
      ConcatAssoc(delivered, [a.text], if a.host.Continues? then Delivered(rest[1..]) else []);
    }
  }

  /** With nothing left to come. */
  lemma TrackEnds(answers: seq<Answer>, raises: bool, delivered: seq<string>, interrupted: bool, closed: bool)
    requires OnTrack(answers, [], raises, delivered, interrupted, closed)
    ensures delivered == Delivered(answers)
    ensures ExitOf(answers, raises) == (if closed then ByClose else if raises then ByFailure else ByCompletion)
  {
  }

  class TextChatSession {
    var interruptRequested: bool
    var active: bool
    var closed: bool
    var state: SessionState
    var listening: bool          // the callbacks are registered
    var heard: seq<Event>        // what they have received

    constructor ()
      ensures !closed && !active && !interruptRequested && state == IdleState && listening && heard == []
    {
      interruptRequested, active, closed, state, listening, heard := false, false, false, IdleState, true, [];
    }

    method EmitRealtimeEvent(e: Event)
      modifies this`heard
      ensures heard == old(heard) + if listening then [e] else []
    {
      if listening { heard := heard + [e]; }
    }

    method SetState(s: SessionState)
      modifies this`state
      ensures state == s
    {
      if state == s { return; }
      state := s;
    }

    method InterruptResult() returns (outcome: InterruptOutcome)
      modifies this`interruptRequested, this`heard
      ensures outcome == if closed then AlreadyClosed else if !active then NoActiveTurn else Accepted
      ensures interruptRequested <==> old(interruptRequested) || outcome.Accepted?
      ensures heard == old(heard) + if listening then [InterruptRequested(outcome)] else []
    {
      outcome := AlreadyClosed;
      if !closed {
        if !active {
          outcome := NoActiveTurn;
        } else {
          interruptRequested := true;
          outcome := Accepted;
        }
      }
      EmitRealtimeEvent(InterruptRequested(outcome));
    }

    /** With an active turn, the callbacks hear of the close and are cleared. */
    method Close()
      modifies this
      ensures closed
      ensures old(closed) ==> heard == old(heard) && active == old(active) && state == old(state)
                              && listening == old(listening)
      ensures !old(closed) ==> interruptRequested && !active
      ensures !old(closed) ==> heard == old(heard) + if old(active) && old(listening) then [SessionClosed] else []
      ensures !old(closed) ==> state == if old(active) then ClosedState else old(state)
      ensures !old(closed) ==> listening == (old(listening) && !old(active))
    {
      if closed { return; }
      var hadContext := active;
      closed, interruptRequested := true, true;
      if hadContext {
        SetState(ClosedState);
        EmitRealtimeEvent(SessionClosed);
        active, listening := false, false;
      }
    }

    /** A whole turn. What the callbacks hear of it and of the host's actions follows the
        generator's script for the chunks delivered, with exactly one terminal event among
        it, whether from the turn or from the close. */
    method AskStream(answers: seq<Answer>, raises: bool) returns (delivered: seq<string>, exit: Exit)
      requires closed || (!active && state == IdleState && listening)
      modifies this
      ensures old(closed) ==>
                && delivered == [] && heard == old(heard) && closed
                && state == old(state) && active == old(active) && listening == old(listening)
      ensures !old(closed) ==>
                && delivered == Delivered(answers) && exit == ExitOf(answers, raises)
                && Told(old(heard), heard, delivered, Ending(exit, delivered), 1)
                && (closed <==> exit.ByClose?)
                && !active && (!closed ==> state == IdleState && listening)
    {
      hide Told, OnTrack, Generated, Preamble, Terminals, Delivered, ExitOf, Concat;
      delivered, exit := [], ByClose;
      if closed { return; }
      ghost var before := heard;
      active, interruptRequested := true, false;
      SetState(Responding);
      EmitRealtimeEvent(TurnStarted);
      EmitRealtimeEvent(ResponseStarted);
      ToldOpening(before);
      TrackStarts(answers, raises);
      var interrupted: bool;
      delivered, interrupted := Deliver(answers, raises, before);
      if interrupted {
        SetState(Interrupted);
        ToldMore(before, heard, delivered, [], 0, TurnInterrupted);
        EmitRealtimeEvent(TurnInterrupted);
        exit := ByInterrupt;
      } else if !closed && raises {
        SetState(ErrorState);
        ToldMore(before, heard, delivered, [], 0, TurnFailed);
        EmitRealtimeEvent(TurnFailed);
        exit := ByFailure;
      } else if !closed {
        ToldMore(before, heard, delivered, [], 0, ResponseCompleted(Concat(delivered)));
        EmitRealtimeEvent(ResponseCompleted(Concat(delivered)));
        ToldMore(before, heard, delivered, [ResponseCompleted(Concat(delivered))], 0, TurnCompleted);
        assert [ResponseCompleted(Concat(delivered))] + [TurnCompleted] == Ending(ByCompletion, delivered);
        EmitRealtimeEvent(TurnCompleted);
        exit := ByCompletion;
      }
      active := false;
      if !closed { SetState(IdleState); }
    }

    /** The loop over the model's answers; `interrupted` when it is left at an interrupt check. */
    method Deliver(answers: seq<Answer>, raises: bool, ghost before: seq<Event>)
      returns (delivered: seq<string>, interrupted: bool)
      requires active && !closed && !interruptRequested && listening
      requires Told(before, heard, [], [], 0) && OnTrack(answers, answers, raises, [], false, false)
      modifies this
      ensures delivered == Delivered(answers)
      ensures ExitOf(answers, raises) == (if closed then ByClose
                                          else if interrupted then ByInterrupt
                                          else if raises then ByFailure else ByCompletion)
      ensures interrupted ==> !closed
      ensures (active <==> !closed) && (listening <==> !closed)
      ensures Told(before, heard, delivered, [], if closed then 1 else 0)
    {
      hide Told, OnTrack, Generated, Preamble, Terminals, Delivered, ExitOf, Concat;
      delivered, interrupted := [], false;
      var i := 0;
      while i < |answers|
        invariant i <= |answers| && (active <==> !closed) && (listening <==> !closed)
        invariant closed ==> interruptRequested
        invariant Told(before, heard, delivered, [], if closed then 1 else 0)
        invariant OnTrack(answers, answers[i..], raises, delivered, interruptRequested, closed)
      {
        if closed || interruptRequested {
          ClosedTrack(answers, answers[i..], raises, delivered, true, closed);
          interrupted := !closed;
          return;
        }
        var a := answers[i];
        TrackStep(answers, answers[i..], raises, delivered);
        assert answers[i..][1..] == answers[i + 1..];
        if a.text != "" {
          ToldDelta(before, heard, delivered, 0, a.text);
          EmitRealtimeEvent(ResponseDelta(|delivered|, a.text));
          delivered := delivered + [a.text];
          match a.host {
            case Continues =>
            case Interrupts =>
              ToldMore(before, heard, delivered, [], 0, InterruptRequested(Accepted));
              var outcome := InterruptResult();
            case Closes =>
              ToldMore(before, heard, delivered, [], 0, SessionClosed);
              Close();
          }
        }
        i := i + 1;
      }
      assert answers[i..] == [];
      TrackEnds(answers, raises, delivered, interruptRequested, closed);
    }
  }

  /** What a closed or interrupted turn has already decided. */
  lemma ClosedTrack(answers: seq<Answer>, rest: seq<Answer>, raises: bool, delivered: seq<string>,
                    interrupted: bool, closed: bool)
    requires OnTrack(answers, rest, raises, delivered, interrupted, closed)
    ensures closed ==> delivered == Delivered(answers) && ExitOf(answers, raises) == ByClose
    ensures interrupted && !closed && rest != [] ==>
              delivered == Delivered(answers) && ExitOf(answers, raises) == ByInterrupt
  {
  }
}
