/** What the events of a run do, told without the code: the converse of `BridgeProvenance`.
    Whatever an event announces is carried out by the work it starts; and acknowledgements,
    marks and outages are exactly what the events of the run so far make them. */
module BridgeResponses {
  import opened Collections
  import opened GatewayBridge
  import opened BridgeInvariant
  import opened BridgeProtocol
  import opened BridgeTheorems
  import opened BridgeAccounting
  import opened BridgeProvenance

  // ----- announced settlements -----

  /** The settlement is made, or work is suspended that ends by making it. */
  ghost predicate UnderWay(s: System, after: System, st: Settlement)
  {
    after.bridge.settlements == s.bridge.settlements + [st] || Purposed(after, st)
  }

  lemma ChatIsHeard(s: System, e: Event, st: Settlement)
    requires Inv(s) && Enabled(s, e) && Brings(s, e, st) && st.cause.ChatEvent?
    ensures Purposed(Step(s, e), st)
  {
    hide BridgeOk, TaskOk, BeginFinish, IsFirstMeant;
    FindsTheFirst(s.bridge, e.sessionKey, e.named, st.run);
    assert Purpose(Step(s, e).tasks[s.nextTask]) == Some(st);
  }

  /** The announced prompt leaves the map at once, unless a final message must be delivered to the
      client first. */
  lemma MessageComesFirst(s: System, e: Event, run: string)
    requires Inv(s) && Enabled(s, e) && e.ChatArrives? && Announces(s, e, e.named, run)
    ensures IsPending(Step(s, e).bridge, run) <==> e.state.Final? && e.hasMessage
    ensures e.state.Final? && e.hasMessage ==> Step(s, e).bridge == s.bridge
  {
    hide TaskOk, BridgeOk, BeginFinish, IsFirstMeant;
    FindsTheFirst(s.bridge, e.sessionKey, e.named, run);
    FinishKeeps(s, run);
  }

  lemma AnswerIsHeard(s: System, e: Event, st: Settlement)
    requires Inv(s) && Enabled(s, e) && Brings(s, e, st) && st.cause.WaitReply?
    ensures Purposed(Step(s, e), st)
  {
    hide BridgeOk, Cleared, BeginFinish, AtDeadline;
    assert TaskOk(s.bridge, s.tasks[e.task]);
    assert Purpose(Step(s, e).tasks[if e.result == RunOk then e.task else s.nextTask]) == Some(st);
  }

  lemma CancelIsHeard(s: System, e: Event, st: Settlement)
    requires Inv(s) && Enabled(s, e) && Brings(s, e, st) && st.cause.CancelRequest?
    ensures Purposed(Step(s, e), st)
  {
    hide BridgeOk, TaskOk;
    assert Purpose(Step(s, e).tasks[s.nextTask]) == Some(st);
  }

  lemma FailureIsHeard(s: System, e: Event, st: Settlement)
    requires Inv(s) && Enabled(s, e) && Brings(s, e, st) && st.cause.SendFailure?
    ensures Step(s, e).bridge.settlements == s.bridge.settlements + [st]
  {
    hide BridgeOk, BeginFinish;
    assert TaskOk(s.bridge, s.tasks[e.task]);
  }

  lemma DeadlineIsHeard(s: System, e: Event, st: Settlement)
    requires Inv(s) && Enabled(s, e) && Brings(s, e, st) && st.cause.Deadline?
    ensures Step(s, e).bridge.settlements == s.bridge.settlements + [st]
  {
    hide BridgeOk, Cleared, BeginFinish, ShouldReject, IsGivenUp;
    assert TaskOk(s.bridge, s.tasks[e.task]);
    RejectsTheGivenUp(s.bridge, st.run, s.tasks[e.task].ctx);
  }

  /** Whatever an event brings is made in the same step, or left to suspended work. */
  lemma WhatIsBroughtIsUnderWay(s: System, e: Event, st: Settlement)
    requires Inv(s) && Enabled(s, e) && Brings(s, e, st)
    ensures UnderWay(s, Step(s, e), st)
  {
    hide Inv, Enabled, Step, Brings;
    match st.cause
    case ChatEvent(_) => ChatIsHeard(s, e, st);
    case WaitReply(_) => AnswerIsHeard(s, e, st);
    case CancelRequest => CancelIsHeard(s, e, st);
    case SendFailure => FailureIsHeard(s, e, st);
    case Deadline(_) => DeadlineIsHeard(s, e, st);
  }

  /** Suspended work with a purpose, resumed, fulfils it. Only a stream first goes on to finish
      its prompt, if the message could be delivered, and is otherwise given up. */
  lemma PurposesAreFulfilled(s: System, e: Event, k: nat)
    requires Inv(s) && Enabled(s, e) && Resumes(e, k) && k in s.tasks && Purpose(s.tasks[k]).Some?
    ensures var st := Purpose(s.tasks[k]).value;
      if e.StreamReturns? && !e.delivered then k !in Step(s, e).tasks && Step(s, e).bridge == s.bridge
      else UnderWay(s, Step(s, e), st) && (Purposed(Step(s, e), st) || !e.StreamReturns?)
  {
    hide BridgeOk, Cleared, BeginFinish;
    assert TaskOk(s.bridge, s.tasks[k]);
    if e.StreamReturns? && e.delivered {
      assert Purpose(Step(s, e).tasks[k]) == Purpose(s.tasks[k]);
    }
  }

  /** A send that is neither acknowledged nor a failure settles nothing: refused for its
      provenance it is tried again without, once; and if the gateway closed, the prompt is
      left to the disconnect. */
  lemma OtherSendsAreHarmless(s: System, e: Event)
    requires Inv(s) && Enabled(s, e) && e.SendReturns? && e.sent != SendAccepted
    requires !Fails(s, e, s.tasks[e.task].run)
    ensures Step(s, e).bridge == s.bridge
    ensures Step(s, e).tasks == if e.sent == GatewayClosed then s.tasks - {e.task}
                                else s.tasks[e.task := Sending(s.tasks[e.task].run, false)]
  {
    hide BridgeOk;
    assert TaskOk(s.bridge, s.tasks[e.task]);
  }

  // ----- acknowledgements -----

  /** The send of the prompt, which is in the map, is acknowledged. */
  predicate Acknowledges(s: System, e: Event, run: string)
  {
    && e.SendReturns? && e.sent == SendAccepted && e.task in s.tasks
    && s.tasks[e.task].Sending? && s.tasks[e.task].run == run && IsPending(s.bridge, run)
  }

  /** The deadline spares the prompt: it is not waited for, but not rejected either. */
  predicate Spares(s: System, e: Event, run: string)
  {
    e.WaitReturns? && e.task in s.tasks && s.tasks[e.task].SweepWaiting?
    && var t := s.tasks[e.task];
    && t.sweep.deadlineExpired && t.sweep.next < |t.sweep.snapshot| && t.sweep.snapshot[t.sweep.next].1 == run
    && (e.result == WaitFailed || (e.result == RunUnfinished && IsPending(s.bridge, run)))
    && run in s.bridge.prompts && s.bridge.prompts[run].disconnect == Some(t.ctx)
    && !IsGivenUp(s.bridge, run, t.ctx)
  }

  /** What the step notes about a prompt made before. */
  ghost predicate NotesExactly(s: System, e: Event, after: Bridge, run: string)
    requires run in s.bridge.prompts
  {
    && run in after.prompts
    && var was, later := s.bridge.prompts[run], after.prompts[run];
    && later.sessionId == was.sessionId && later.sessionKey == was.sessionKey
    && (later.sendAccepted <==> was.sendAccepted || Acknowledges(s, e, run))
    && later.disconnect == (if e.GatewayDown? && IsPending(s.bridge, run) then after.active
                            else if Spares(s, e, run) then None
                            else was.disconnect)
  }

  lemma WaitNotes(s: System, e: Event, run: string)
    requires Inv(s) && Enabled(s, e) && e.WaitReturns? && run in s.bridge.prompts
    ensures NotesExactly(s, e, Step(s, e).bridge, run)
  {
    hide BridgeOk, Cleared, ShouldReject, IsGivenUp, BeginFinish;
    assert TaskOk(s.bridge, s.tasks[e.task]);
    var t := s.tasks[e.task];
    RejectsTheGivenUp(s.bridge, t.sweep.snapshot[t.sweep.next].1, t.ctx);
  }

  lemma ResumptionNotes(s: System, e: Event, run: string)
    requires Inv(s) && Enabled(s, e) && Resumption(e) && !e.WaitReturns? && run in s.bridge.prompts
    ensures NotesExactly(s, e, Step(s, e).bridge, run)
  {
    hide BridgeOk, Cleared, RunSweep, BeginFinish, AfterWait;
    assert TaskOk(s.bridge, s.tasks[e.task]);
  }

  lemma ArrivalNotes(s: System, e: Event, run: string)
    requires Inv(s) && Enabled(s, e) && !Resumption(e) && run in s.bridge.prompts
    ensures NotesExactly(s, e, Step(s, e).bridge, run)
  {
    hide TaskOk, PendingCarryOutage, TimerOk, SettlementsOk, StartSweep, ChatEventArrives;
  }

  /** A step acknowledges, marks and unmarks exactly the prompts it must: the one whose send is
      acknowledged while it is in the map, all in the map when the gateway goes down, and the
      one a deadline spares. A prompt's session never changes. */
  lemma StepNotesExactly(s: System, e: Event, run: string)
    requires Inv(s) && Enabled(s, e) && run in s.bridge.prompts
    ensures NotesExactly(s, e, Step(s, e).bridge, run)
  {
    hide Inv, Enabled, Step, NotesExactly;
    if e.WaitReturns? {
      WaitNotes(s, e, run);
    } else if Resumption(e) {
      ResumptionNotes(s, e, run);
    } else {
      ArrivalNotes(s, e, run);
    }
  }

  /** A prompt is new exactly if it arrives, and then not acknowledged. */
  lemma NewPromptsArrive(s: System, e: Event, run: string)
    requires Inv(s) && Enabled(s, e) && run !in s.bridge.prompts
    ensures run in Step(s, e).bridge.prompts <==> e.PromptArrives? && e.run == run
    ensures run in Step(s, e).bridge.prompts ==>
      Step(s, e).bridge.prompts[run] == Prompt(e.sessionId, e.sessionKey, false, s.bridge.active)
  {
    hide BridgeOk;
    if Resumption(e) {
      assert TaskOk(s.bridge, s.tasks[e.task]);
    }
  }

  /** A prompt counts as acknowledged if and only if its send was acknowledged while it was in
      the map. */
  lemma {:induction false} AcknowledgedExactly(trace: seq<System>, events: seq<Event>, i: nat, run: string)
    requires IsRun(trace, events) && i < |trace| && run in trace[i].bridge.prompts
    ensures trace[i].bridge.prompts[run].sendAccepted <==>
      exists j :: 0 <= j < i && Acknowledges(trace[j], events[j], run)
  {
    hide Step, Inv, Acknowledges;
    if i > 0 {
      RunStep(trace, events, i - 1);
      if run in trace[i - 1].bridge.prompts {
        AcknowledgedExactly(trace, events, i - 1, run);
        StepNotesExactly(trace[i - 1], events[i - 1], run);
      } else {
        NewPromptsArrive(trace[i - 1], events[i - 1], run);
        forall j | 0 <= j < i
          ensures !Acknowledges(trace[j], events[j], run)
        {
          NotMadeBefore(trace, events, j, i - 1, run);
          NobodyAcknowledges(trace[j], events[j], run);
        }
      }
    }
  }

  lemma NobodyAcknowledges(s: System, e: Event, run: string)
    requires run !in s.bridge.prompts
    ensures !Acknowledges(s, e, run)
  {
  }

  lemma {:induction false} NotMadeBefore(trace: seq<System>, events: seq<Event>, j: nat, i: nat, run: string)
    requires IsRun(trace, events) && j <= i < |trace| && run !in trace[i].bridge.prompts
    ensures run !in trace[j].bridge.prompts
  {
    if j < i {
      RunStep(trace, events, i - 1);
      NotMadeBefore(trace, events, j, i - 1, run);
    }
  }

  // ----- outages -----

  /** The last of the first `i` events about the gateway was the `j`-th, and it went down. */
  ghost predicate WentDown(events: seq<Event>, i: nat, j: nat)
    requires i <= |events|
  {
    && j < i && events[j].GatewayDown?
    && (forall k :: j < k < i ==> !events[k].GatewayDown? && !events[k].GatewayUp?)
  }

  function Downs(events: seq<Event>): nat
  {
    if events == [] then 0 else Downs(events[..|events| - 1]) + (if events[|events| - 1].GatewayDown? then 1 else 0)
  }

  lemma StepOutage(s: System, e: Event)
    requires Inv(s) && Enabled(s, e)
    ensures var b, later := s.bridge, Step(s, e).bridge;
      && later.generation == (if e.GatewayDown? then b.generation + 1 else b.generation)
      && later.active == (if e.GatewayDown? then Some(Context(b.generation + 1, e.reason))
                          else if e.GatewayUp? then None
                          else b.active)
  {
    hide BridgeOk;
    if Resumption(e) {
      assert TaskOk(s.bridge, s.tasks[e.task]);
    }
  }

  /** The bridge takes the gateway to be down exactly if it went down and has not come up since,
      and knows the reason it gave; generations count the outages. */
  lemma {:induction false} DownExactly(trace: seq<System>, events: seq<Event>, i: nat)
    requires IsRun(trace, events) && i < |trace|
    ensures trace[i].bridge.generation == Downs(events[..i])
    ensures trace[i].bridge.active.None? ==> forall j :: 0 <= j < i ==> !WentDown(events, i, j)
    ensures trace[i].bridge.active.Some? ==>
      exists j :: 0 <= j < i && WentDown(events, i, j)
                  && trace[i].bridge.active.value == Context(Downs(events[..i]), events[j].reason)
  {
    hide Step, Inv;
    if i > 0 {
      RunStep(trace, events, i - 1);
      DownExactly(trace, events, i - 1);
      StepOutage(trace[i - 1], events[i - 1]);
      assert events[..i][..i - 1] == events[..i - 1];
      if events[i - 1].GatewayDown? {
        assert WentDown(events, i, i - 1);
      } else if !events[i - 1].GatewayUp? {
        forall j | 0 <= j < i - 1
          ensures WentDown(events, i, j) <==> WentDown(events, i - 1, j)
        {
        }
      }
    }
  }
}
