/** Prompts that nothing will settle any more, and all others, which something can. */
module BridgeAbandonment {
  import opened Collections
  import opened GatewayBridge
  import opened BridgeInvariant
  import opened BridgeProtocol
  import opened BridgeTheorems
  import opened BridgeAccounting

  /** Resuming the task may finish, reject or cancel this very prompt. */
  predicate Refers(t: Task, run: string)
  {
    (t.Sending? || t.Streaming? || t.Finishing? || t.Cancelling? || t.SweepFinishing?) && t.run == run
  }

  ghost predicate NobodyRefers(s: System, run: string)
  {
    forall k :: k in s.tasks ==> !Refers(s.tasks[k], run)
  }

  /** Out of the map, and no suspended work is about the prompt any more. */
  ghost predicate Abandoned(s: System, run: string)
  {
    run in s.bridge.prompts && !IsPending(s.bridge, run) && NobodyRefers(s, run)
  }

  /** What a chat event finds is in the map, so it is not an abandoned prompt. */
  lemma ChatAbandons(s: System, sessionKey: string, named: Option<string>, state: ChatState, hasMessage: bool,
                     run: string)
    requires Inv(s) && Abandoned(s, run)
    ensures NobodyRefers(ChatEventArrives(s, sessionKey, named, state, hasMessage), run)
  {
    FoundIsPending(s.bridge, sessionKey, named);
  }

  lemma RunSweepAbandons(s: System, k: nat, sw: Sweep, run: string)
    requires NobodyRefers(s, run) && sw.next <= |sw.snapshot|
    ensures NobodyRefers(RunSweep(s, k, sw), run)
  {
  }

  lemma StartSweepAbandons(s: System, generation: nat, deadlineExpired: bool, run: string)
    requires NobodyRefers(s, run) && s.bridge.pending.Valid()
    ensures NobodyRefers(StartSweep(s, generation, deadlineExpired), run)
  {
  }

  lemma ArrivalAbandons(s: System, e: Event, run: string)
    requires Inv(s) && Enabled(s, e) && Abandoned(s, run) && !Resumption(e)
    ensures NobodyRefers(Step(s, e), run) && Step(s, e).bridge.settlements == s.bridge.settlements
  {
    ArrivalsOnlySpawn(s, e, 0);
    match e
    case ChatArrives(sessionKey, named, state, hasMessage) =>
      ChatAbandons(s, sessionKey, named, state, hasMessage, run);
    case GatewayUp =>
      if s.bridge.active.Some? {
        StartSweepAbandons(With(s, s.bridge.(active := None)), s.bridge.active.value.generation, false, run);
      }
    case TimerFires => StartSweepAbandons(With(s, s.bridge.(timer := None)), s.bridge.timer.value, true, run);
    case _ =>
  }

  lemma AfterSendAbandons(s: System, k: nat, sent: SendResult, run: string)
    requires Inv(s) && k in s.tasks && s.tasks[k].Sending? && Abandoned(s, run)
    ensures var after := Step(s, SendReturns(k, sent));
            NobodyRefers(after, run) && NotSettledSince(s.bridge, after.bridge, run)
  {
    assert TaskOk(s.bridge, s.tasks[k]);
    assert s.tasks[k].run != run;
  }

  lemma AfterWaitAbandons(s: System, k: nat, result: WaitResult, run: string)
    requires Inv(s) && k in s.tasks && s.tasks[k].SweepWaiting? && Abandoned(s, run)
    ensures var after := Step(s, WaitReturns(k, result));
            NobodyRefers(after, run) && NotSettledSince(s.bridge, after.bridge, run)
  {
    hide BridgeOk, Cleared, SweepOk, KnownOutage, BeginFinish;
    var sw := s.tasks[k].sweep;
    assert TaskOk(s.bridge, s.tasks[k]);
    var asked := sw.snapshot[sw.next].1;
    WaitRejects(s, k, result);
    if asked == run {
      assert AtDeadline(s.bridge, run, s.tasks[k].ctx).settlements == s.bridge.settlements;
    }
  }

  lemma ResumptionAbandons(s: System, e: Event, run: string)
    requires Inv(s) && Enabled(s, e) && Abandoned(s, run) && Resumption(e)
    ensures NobodyRefers(Step(s, e), run) && NotSettledSince(s.bridge, Step(s, e).bridge, run)
  {
    var t := s.tasks[e.task];
    assert TaskOk(s.bridge, t) && !Refers(t, run);
    match e
    case SendReturns(k, sent) => AfterSendAbandons(s, k, sent, run);
    case WaitReturns(k, result) => AfterWaitAbandons(s, k, result, run);
    case SweepResumes(k) => RunSweepAbandons(s, k, t.sweep, run);
    case _ =>
  }

  lemma StepAbandons(s: System, e: Event, run: string)
    requires Inv(s) && Enabled(s, e) && Abandoned(s, run)
    ensures Abandoned(Step(s, e), run) && NotSettledSince(s.bridge, Step(s, e).bridge, run)
  {
    StepKeeps(s, e);
    if Resumption(e) {
      ResumptionAbandons(s, e, run);
    } else {
      ArrivalAbandons(s, e, run);
    }
  }

  /** A finite continuation of a state that satisfies the invariant. */
  ghost predicate Continues(trace: seq<System>, events: seq<Event>)
  {
    && |trace| == |events| + 1
    && Inv(trace[0])
    && forall i {:trigger events[i]} :: 0 <= i < |events| ==>
         Enabled(trace[i], events[i]) && (Inv(trace[i]) ==> trace[i + 1] == Step(trace[i], events[i]))
  }

  lemma {:induction false} ContinuationInv(trace: seq<System>, events: seq<Event>, i: nat)
    requires Continues(trace, events) && i < |trace|
    ensures Inv(trace[i])
  {
    if i > 0 {
      ContinuationInv(trace, events, i - 1);
      assert Enabled(trace[i - 1], events[i - 1]);
      StepKeeps(trace[i - 1], events[i - 1]);
    }
  }

  /** An abandoned prompt stays abandoned: its promise is never settled again. */
  lemma {:induction false} AbandonedForGood(trace: seq<System>, events: seq<Event>, i: nat, j: nat, run: string)
    requires Continues(trace, events) && i <= j < |trace| && Abandoned(trace[i], run)
    ensures Abandoned(trace[j], run) && NotSettledSince(trace[i].bridge, trace[j].bridge, run)
  {
    hide Step, Inv, Abandoned, Enabled;
    if i < j {
      AbandonedForGood(trace, events, i, j - 1, run);
      ContinuationInv(trace, events, j - 1);
      assert Enabled(trace[j - 1], events[j - 1]);
      StepAbandons(trace[j - 1], events[j - 1], run);
    }
  }

  /** When the entry of a prompt is taken and no suspended work is about it (its send was
      acknowledged, nobody is cancelling it, no final message of it is on its way to the
      client), it is never settled in any continuation. */
  lemma TakenPromptNeverSettles(trace: seq<System>, events: seq<Event>, i: nat, j: nat, run: string)
    requires Continues(trace, events) && i < j < |trace|
    requires Takes(trace[i], events[i], run) && NobodyRefers(trace[i], run)
    ensures NotSettledSince(trace[i].bridge, trace[j].bridge, run) && !IsPending(trace[j].bridge, run)
  {
    ContinuationInv(trace, events, i);
    assert Enabled(trace[i], events[i]);
    TakingAbandons(trace[i], events[i], run);
    AbandonedForGood(trace, events, i + 1, j, run);
  }

  lemma TakingAbandons(s: System, e: Event, run: string)
    requires Inv(s) && Enabled(s, e) && Takes(s, e, run) && NobodyRefers(s, run)
    ensures Abandoned(Step(s, e), run) && NotSettledSince(s.bridge, Step(s, e).bridge, run)
  {
    LostExactly(s, e, run);
    StepKeeps(s, e);
  }

  /** A second prompt on a session takes the first one's entry without settling it. */
  lemma SupersededPromptNeverSettles(trace: seq<System>, events: seq<Event>, i: nat, j: nat, run: string)
    requires Continues(trace, events) && i < j < |trace|
    requires events[i].PromptArrives? && trace[i].bridge.pending.Get(events[i].sessionId) == Some(run)
    requires NobodyRefers(trace[i], run)
    ensures Takes(trace[i], events[i], run)
    ensures NotSettledSince(trace[i].bridge, trace[j].bridge, run) && !IsPending(trace[j].bridge, run)
  {
    ContinuationInv(trace, events, i);
    TakenPromptNeverSettles(trace, events, i, j, run);
  }

  // ----- everything else can be settled -----

  /** Some continuation settles the prompt. */
  ghost predicate CanSettle(s: System, run: string)
  {
    exists trace: seq<System>, events: seq<Event> :: Continues(trace, events) && trace[0] == s
                            && !NotSettledSince(s.bridge, trace[|trace| - 1].bridge, run)
  }

  lemma OneStepSettles(s: System, e: Event, run: string)
    requires Inv(s) && Enabled(s, e) && !NotSettledSince(s.bridge, Step(s, e).bridge, run)
    ensures CanSettle(s, run)
  {
    hide NotSettledSince, Step, Inv, Enabled;
    var trace, events := [s, Step(s, e)], [e];
    assert events[0] == e;
    assert Continues(trace, events) && trace[0] == s && trace[|trace| - 1] == Step(s, e);
  }

  lemma TwoStepsSettle(s: System, e: Event, f: Event, run: string)
    requires Inv(s) && Enabled(s, e) && Inv(Step(s, e)) && Enabled(Step(s, e), f)
    requires !NotSettledSince(s.bridge, Step(Step(s, e), f).bridge, run)
    ensures CanSettle(s, run)
  {
    hide NotSettledSince, Step, Inv, Enabled;
    var mid := Step(s, e);
    var trace, events := [s, mid, Step(mid, f)], [e, f];
    assert events[0] == e && events[1] == f;
    assert Continues(trace, events) && trace[0] == s && trace[|trace| - 1] == Step(mid, f);
  }

  /** A prompt in the map can be cancelled. */
  lemma PendingCanSettle(s: System, run: string)
    requires Inv(s) && IsPending(s.bridge, run)
    ensures CanSettle(s, run)
  {
    var e, f := CancelArrives(s.bridge.prompts[run].sessionId), AbortReturns(s.nextTask);
    StepKeeps(s, e);
    var mid := Step(s, e);
    assert mid == Spawn(s, Cancelling(run));
    JustSettled(s, Step(mid, f), run, Resolved(Cancelled), CancelRequest);
    TwoStepsSettle(s, e, f, run);
  }

  /** Work about a prompt can end by settling it. */
  lemma ReferredCanSettle(s: System, k: nat, run: string)
    requires Inv(s) && k in s.tasks && Refers(s.tasks[k], run) && !IsPending(s.bridge, run)
    ensures CanSettle(s, run)
  {
    var t := s.tasks[k];
    assert TaskOk(s.bridge, t);
    match t
    case Sending(_, _) =>
      JustSettled(s, Step(s, SendReturns(k, SendFailed)), run, RejectedSend, SendFailure);
      OneStepSettles(s, SendReturns(k, SendFailed), run);
    case Streaming(_, named, stop) => StreamingCanSettle(s, k, run);
    case Finishing(_, stop, cause) =>
      JustSettled(s, Step(s, FinishReturns(k)), run, Resolved(stop), cause);
      OneStepSettles(s, FinishReturns(k), run);
    case Cancelling(_) =>
      JustSettled(s, Step(s, AbortReturns(k)), run, Resolved(Cancelled), CancelRequest);
      OneStepSettles(s, AbortReturns(k), run);
    case SweepFinishing(_, _) =>
      JustSettled(s, Step(s, SweepFinishReturns(k)), run, Resolved(EndTurn), WaitReply(run));
      OneStepSettles(s, SweepFinishReturns(k), run);
  }

  lemma StreamingCanSettle(s: System, k: nat, run: string)
    requires Inv(s) && k in s.tasks && s.tasks[k].Streaming? && s.tasks[k].run == run
    ensures CanSettle(s, run)
  {
    var t, e, f := s.tasks[k], StreamReturns(k, true), FinishReturns(k);
    assert TaskOk(s.bridge, t);
    StepKeeps(s, e);
    var mid := Step(s, e);
    assert mid.tasks[k] == Finishing(run, t.stop, ChatEvent(t.named));
    JustSettled(s, Step(mid, f), run, Resolved(t.stop), ChatEvent(t.named));
    TwoStepsSettle(s, e, f, run);
  }

  /** Some continuation settles a prompt if and only if it is not abandoned: it is in the
      map, or suspended work is about it. */
  lemma CanSettleExactly(s: System, run: string)
    requires Reachable(s) && run in s.bridge.prompts
    ensures CanSettle(s, run) <==> !Abandoned(s, run)
  {
    ReachableInv(s);
    if Abandoned(s, run) {
      forall trace: seq<System>, events: seq<Event> | Continues(trace, events) && trace[0] == s
        ensures NotSettledSince(s.bridge, trace[|trace| - 1].bridge, run)
      {
        AbandonedForGood(trace, events, 0, |trace| - 1, run);
      }
    } else if IsPending(s.bridge, run) {
      PendingCanSettle(s, run);
    } else {
      var k :| k in s.tasks && Refers(s.tasks[k], run);
      ReferredCanSettle(s, k, run);
    }
  }
}
