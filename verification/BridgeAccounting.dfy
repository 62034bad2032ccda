/** Where every prompt is, over every run, and which steps lose one. */
module BridgeAccounting {
  import opened Collections
  import opened GatewayBridge
  import opened BridgeInvariant
  import opened BridgeProtocol
  import opened BridgeTheorems

  ghost predicate Settled(b: Bridge, run: string)
  {
    exists i :: 0 <= i < |b.settlements| && b.settlements[i].run == run
  }

  /** The task ends by settling `run`. */
  predicate Holds(t: Task, run: string)
  {
    (t.Finishing? || t.SweepFinishing?) && t.run == run
  }

  ghost predicate InFlight(s: System, run: string)
  {
    exists k :: k in s.tasks && Holds(s.tasks[k], run)
  }

  ghost predicate NotSettledSince(b: Bridge, later: Bridge, run: string)
  {
    && b.settlements <= later.settlements
    && (forall n :: |b.settlements| <= n < |later.settlements| ==> later.settlements[n].run != run)
  }

  // ----- which steps lose a prompt -----

  /** Two prompts of one session. */
  predicate SameSession(b: Bridge, run: string, other: string)
  {
    run in b.prompts && other in b.prompts && b.prompts[run].sessionId == b.prompts[other].sessionId
  }

  /** Task `k` is about another prompt of the session of `run`. */
  predicate IsRival(s: System, k: nat, run: string)
  {
    && k in s.tasks && (s.tasks[k].Sending? || s.tasks[k].Streaming? || s.tasks[k].Cancelling?)
    && s.tasks[k].run != run && SameSession(s.bridge, s.tasks[k].run, run)
  }

  /** The step takes the map entry of `run` on behalf of another prompt of its session: a
      new prompt arrives, or work for an earlier one ends, namely a send that fails for
      good, a final message that was delivered, or an abort that was answered. */
  predicate Takes(s: System, e: Event, run: string)
  {
    && IsPending(s.bridge, run)
    && match e
       case PromptArrives(sessionId, _, _, _) => sessionId == s.bridge.prompts[run].sessionId
       case SendReturns(k, sent) =>
         && IsRival(s, k, run) && sent != SendAccepted
         && s.tasks[k].Sending? && !(sent == ProvenanceRejected && s.tasks[k].provenance)
       case StreamReturns(k, delivered) => IsRival(s, k, run) && delivered
       case AbortReturns(k) => IsRival(s, k, run)
       case _ => false
  }

  /** What a step did with a prompt that was in the map. */
  ghost predicate Lost(s: System, after: System, run: string)
  {
    && !IsPending(after.bridge, run) && !InFlight(after, run)
    && NotSettledSince(s.bridge, after.bridge, run)
  }

  /** No task holds a prompt that is in the map. */
  lemma PendingIsNotHeld(s: System, run: string)
    requires Inv(s) && IsPending(s.bridge, run)
    ensures !InFlight(s, run)
  {
    forall k | k in s.tasks
      ensures !Holds(s.tasks[k], run)
    {
      assert TaskOk(s.bridge, s.tasks[k]);
    }
  }

  lemma JustSettled(s: System, after: System, run: string, outcome: Outcome, cause: Cause)
    requires after.bridge.settlements == s.bridge.settlements + [Settlement(run, outcome, cause)]
    ensures !NotSettledSince(s.bridge, after.bridge, run) && Settled(after.bridge, run)
  {
    assert after.bridge.settlements[|s.bridge.settlements|].run == run;
  }

  lemma NowHeld(after: System, k: nat, run: string)
    requires k in after.tasks && Holds(after.tasks[k], run)
    ensures InFlight(after, run)
  {
  }

  /** Finishing one prompt takes another out of the map exactly if it is of its session. */
  lemma FinishTakes(s: System, finished: string, run: string)
    requires Inv(s) && finished in s.bridge.prompts && IsPending(s.bridge, run) && run != finished
    ensures IsPending(BeginFinish(s.bridge, finished), run) <==> !SameSession(s.bridge, finished, run)
  {
    RemoveSessionKeeps(s.bridge, s.bridge.prompts[finished].sessionId);
  }

  lemma ArrivalTakes(s: System, e: Event, run: string)
    requires Inv(s) && Enabled(s, e) && e.PromptArrives? && IsPending(s.bridge, run)
    ensures Lost(s, Step(s, e), run) <==> Takes(s, e, run)
  {
    StartPromptKeeps(s.bridge, e.sessionId, e.sessionKey, e.run);
    PendingIsNotHeld(s, run);
    assert Step(s, e).bridge.settlements == s.bridge.settlements;
  }

  lemma StreamTakes(s: System, k: nat, delivered: bool, run: string)
    requires Inv(s) && Enabled(s, StreamReturns(k, delivered)) && IsPending(s.bridge, run)
    ensures Lost(s, Step(s, StreamReturns(k, delivered)), run) <==> Takes(s, StreamReturns(k, delivered), run)
  {
    var t, after := s.tasks[k], Step(s, StreamReturns(k, delivered));
    assert TaskOk(s.bridge, t);
    PendingIsNotHeld(s, run);
    if delivered && t.run == run {
      NowHeld(after, k, run);
    } else if delivered {
      FinishTakes(s, t.run, run);
    }
  }

  lemma AbortTakes(s: System, k: nat, run: string)
    requires Inv(s) && Enabled(s, AbortReturns(k)) && IsPending(s.bridge, run)
    ensures Lost(s, Step(s, AbortReturns(k)), run) <==> Takes(s, AbortReturns(k), run)
  {
    var other, after := s.tasks[k].run, Step(s, AbortReturns(k));
    assert TaskOk(s.bridge, s.tasks[k]);
    PendingIsNotHeld(s, run);
    if other == run {
      JustSettled(s, after, run, Resolved(Cancelled), CancelRequest);
    } else {
      FinishTakes(s, other, run);
    }
  }

  lemma SendTakes(s: System, k: nat, sent: SendResult, run: string)
    requires Inv(s) && Enabled(s, SendReturns(k, sent)) && IsPending(s.bridge, run)
    ensures Lost(s, Step(s, SendReturns(k, sent)), run) <==> Takes(s, SendReturns(k, sent), run)
  {
    hide OutagesOk, PendingCarryOutage, TimerOk, SettlementsOk, MapOk, SweepOk;
    var other, after := s.tasks[k].run, Step(s, SendReturns(k, sent));
    assert TaskOk(s.bridge, s.tasks[k]);
    PendingIsNotHeld(s, run);
    if sent == SendAccepted {
      AcceptSendKeeps(s.bridge, other);
    } else if sent == ProvenanceRejected && s.tasks[k].provenance {
      assert after.bridge == s.bridge;
    } else if other == run {
      if sent != GatewayClosed {
        JustSettled(s, after, run, RejectedSend, SendFailure);
      }
    } else {
      FinishTakes(s, other, run);
    }
  }

  lemma ChatTakes(s: System, e: Event, run: string)
    requires Inv(s) && e.ChatArrives? && IsPending(s.bridge, run)
    ensures !Lost(s, Step(s, e), run)
  {
    var found := FindPending(s.bridge, e.sessionKey, e.named);
    if found.Some? {
      FoundIsPending(s.bridge, e.sessionKey, e.named);
      var finishes := !e.state.Delta? && !(e.state.Final? && e.hasMessage);
      if found.value == run {
        if finishes {
          NowHeld(Step(s, e), s.nextTask, run);
        }
      } else {
        FinishTakes(s, found.value, run);
      }
    }
  }

  /** What a chat event finds is in the map. */
  lemma {:induction false} FoundIsPending(b: Bridge, sessionKey: string, named: Option<string>, from: nat := 0)
    requires MapOk(b)
    ensures var r := FindPending(b, sessionKey, named, from); r.Some? ==> IsPending(b, r.value)
    decreases |b.pending.order| - from
  {
    if from < |b.pending.order| {
      FoundIsPending(b, sessionKey, named, from + 1);
    }
  }

  lemma WaitTakes(s: System, k: nat, result: WaitResult, run: string)
    requires Inv(s) && Enabled(s, WaitReturns(k, result)) && IsPending(s.bridge, run)
    ensures !Lost(s, Step(s, WaitReturns(k, result)), run)
  {
    var sw, ctx := s.tasks[k].sweep, s.tasks[k].ctx;
    assert TaskOk(s.bridge, s.tasks[k]);
    var asked, after := sw.snapshot[sw.next].1, Step(s, WaitReturns(k, result));
    if result != WaitFailed && !IsPending(s.bridge, asked) {
      assert after.bridge == s.bridge;
    } else if result == RunOk || result == RunError {
      if asked == run {
        NowHeld(after, if result == RunOk then k else s.nextTask, run);
      } else {
        FinishTakes(s, asked, run);
      }
    } else if sw.deadlineExpired {
      DeadlineTakes(s, after, asked, ctx, run);
    } else {
      assert after.bridge == s.bridge;
    }
  }

  lemma DeadlineTakes(s: System, after: System, asked: string, ctx: Context, run: string)
    requires Inv(s) && asked in s.bridge.prompts && KnownOutage(s.bridge, ctx) && IsPending(s.bridge, run)
    requires after.bridge == AtDeadline(s.bridge, asked, ctx)
    ensures !Lost(s, after, run)
  {
    AtDeadlineKeeps(s.bridge, asked, ctx);
    if asked == run && ShouldReject(s.bridge, run, ctx) {
      JustSettled(s, after, run, RejectedDisconnected(ctx.reason), Deadline(ctx.generation));
    }
  }

  /** A prompt leaves the map without being settled, and without work that will settle it,
      exactly in the steps that take its entry for another prompt of its session. */
  lemma LostExactly(s: System, e: Event, run: string)
    requires Inv(s) && Enabled(s, e) && IsPending(s.bridge, run)
    ensures Lost(s, Step(s, e), run) <==> Takes(s, e, run)
  {
    match e
    case PromptArrives(_, _, _, _) => ArrivalTakes(s, e, run);
    case SendReturns(k, sent) => SendTakes(s, k, sent, run);
    case ChatArrives(_, _, _, _) => ChatTakes(s, e, run);
    case StreamReturns(k, delivered) => StreamTakes(s, k, delivered, run);
    case AbortReturns(k) => AbortTakes(s, k, run);
    case WaitReturns(k, result) => WaitTakes(s, k, result, run);
    case GatewayDown(reason) => DisconnectKeeps(s.bridge, reason);
    case _ => QuietStepKeeps(s, e, run);
  }

  lemma QuietStepKeeps(s: System, e: Event, run: string)
    requires Inv(s) && Enabled(s, e) && IsPending(s.bridge, run)
    requires e.FinishReturns? || e.SweepFinishReturns? || e.SweepResumes? || e.CancelArrives? || e.GatewayUp?
             || e.TimerFires?
    ensures IsPending(Step(s, e).bridge, run)
  {
    if Resumption(e) {
      assert TaskOk(s.bridge, s.tasks[e.task]);
    }
  }

  // ----- over whole runs -----

  lemma SettledPersists(b: Bridge, later: Bridge, run: string)
    requires Settled(b, run) && b.settlements <= later.settlements
    ensures Settled(later, run)
  {
    var i :| 0 <= i < |b.settlements| && b.settlements[i].run == run;
    assert later.settlements[i] == b.settlements[i];
  }

  /** A task holding a prompt is left alone until it is resumed, and then settles it. */
  lemma HeldStays(s: System, e: Event, run: string)
    requires Inv(s) && Enabled(s, e) && InFlight(s, run)
    ensures Settled(Step(s, e).bridge, run) || InFlight(Step(s, e), run)
  {
    var k :| k in s.tasks && Holds(s.tasks[k], run);
    if Resumes(e, k) {
      HolderSettles(s, e, k, run);
    } else if Resumption(e) {
      ResumptionsLeaveOthers(s, e, e.task, k);
    } else {
      ArrivalsOnlySpawn(s, e, k);
    }
  }

  lemma HolderSettles(s: System, e: Event, k: nat, run: string)
    requires Inv(s) && Enabled(s, e) && Resumes(e, k) && Holds(s.tasks[k], run)
    ensures Settled(Step(s, e).bridge, run)
  {
    var t := s.tasks[k];
    if t.Finishing? {
      JustSettled(s, Step(s, e), run, Resolved(t.stop), t.cause);
    } else {
      JustSettled(s, Step(s, e), run, Resolved(EndTurn), WaitReply(run));
    }
  }

  lemma ResumptionMakesNoPrompt(s: System, e: Event)
    requires Inv(s) && Enabled(s, e) && Resumption(e)
    ensures Step(s, e).bridge.prompts.Keys == s.bridge.prompts.Keys
  {
    assert TaskOk(s.bridge, s.tasks[e.task]);
  }

  /** Nobody makes a prompt but its own arrival, and that puts it in the map. */
  lemma NewPromptIsPending(s: System, e: Event, run: string)
    requires Inv(s) && Enabled(s, e) && run !in s.bridge.prompts && run in Step(s, e).bridge.prompts
    ensures IsPending(Step(s, e).bridge, run)
  {
    match e
    case PromptArrives(sessionId, sessionKey, newRun, _) => StartPromptKeeps(s.bridge, sessionId, sessionKey, newRun);
    case ChatArrives(_, _, _, _) =>
    case GatewayDown(_) =>
    case GatewayUp =>
    case TimerFires =>
    case CancelArrives(_) =>
    case _ => ResumptionMakesNoPrompt(s, e);
  }

  ghost predicate Accounted(s: System, run: string)
  {
    IsPending(s.bridge, run) || Settled(s.bridge, run) || InFlight(s, run)
  }

  lemma StepAccounts(s: System, e: Event, run: string)
    requires Inv(s) && Enabled(s, e) && run in Step(s, e).bridge.prompts
    requires run in s.bridge.prompts ==> Accounted(s, run)
    ensures Accounted(Step(s, e), run) || Takes(s, e, run)
  {
    StepKeeps(s, e);
    if run !in s.bridge.prompts {
      NewPromptIsPending(s, e, run);
    } else if Settled(s.bridge, run) {
      SettledPersists(s.bridge, Step(s, e).bridge, run);
    } else if InFlight(s, run) {
      HeldStays(s, e, run);
    } else {
      LostExactly(s, e, run);
    }
  }

  /** An earlier step took the prompt's entry for another prompt of its session. */
  ghost predicate WasTaken(trace: seq<System>, events: seq<Event>, i: nat, run: string)
    requires |trace| == |events| + 1 && i < |trace|
  {
    exists j :: 0 <= j < i && Takes(trace[j], events[j], run)
  }

  /** At every moment of every run, every prompt ever started is in the map, or has been
      settled, or is held by work that ends by settling it, unless its entry was taken. */
  lemma {:induction false} NoPromptLost(trace: seq<System>, events: seq<Event>, i: nat, run: string)
    requires IsRun(trace, events) && i < |trace| && run in trace[i].bridge.prompts
    ensures Accounted(trace[i], run) || WasTaken(trace, events, i, run)
  {
    if i > 0 {
      RunStep(trace, events, i - 1);
      if run in trace[i - 1].bridge.prompts {
        NoPromptLost(trace, events, i - 1, run);
      }
      if !WasTaken(trace, events, i - 1, run) {
        StepAccounts(trace[i - 1], events[i - 1], run);
      }
    }
  }
}
