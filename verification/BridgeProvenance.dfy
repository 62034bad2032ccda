/** Why a prompt is settled, and how: the event of the run behind every settlement. */
module BridgeProvenance {
  import opened Collections
  import opened GatewayBridge
  import opened BridgeInvariant
  import opened BridgeProtocol
  import opened BridgeTheorems
  import opened BridgeAccounting

  /** The run in the `i`-th entry of the map, oldest first. */
  function RunAt(b: Bridge, i: nat): Option<string>
  {
    if i < |b.pending.order| then b.pending.Get(b.pending.order[i]) else None
  }

  /** The `i`-th entry is of this session key, and of the run, if one is named. */
  predicate IsMeant(b: Bridge, sessionKey: string, named: Option<string>, i: nat)
  {
    && RunAt(b, i).Some?
    && var run := RunAt(b, i).value;
    && run in b.prompts && b.prompts[run].sessionKey == sessionKey
    && (named.None? || named == Some(run))
  }

  /** `run` is in the oldest entry of the map that is meant. */
  ghost predicate IsFirstMeant(b: Bridge, sessionKey: string, named: Option<string>, run: string)
  {
    exists i :: 0 <= i < |b.pending.order| && IsMeant(b, sessionKey, named, i) && RunAt(b, i) == Some(run)
                && forall j :: 0 <= j < i ==> !IsMeant(b, sessionKey, named, j)
  }

  lemma {:induction false} FindStops(b: Bridge, sessionKey: string, named: Option<string>, from: nat) returns (i: nat)
    requires from <= |b.pending.order|
    ensures from <= i <= |b.pending.order| && (forall j :: from <= j < i ==> !IsMeant(b, sessionKey, named, j))
    ensures FindPending(b, sessionKey, named, from) == RunAt(b, i)
    ensures i < |b.pending.order| ==> IsMeant(b, sessionKey, named, i)
    decreases |b.pending.order| - from
  {
    if from == |b.pending.order| || Matches(b, b.pending.order[from], sessionKey, named) {
      i := from;
    } else {
      i := FindStops(b, sessionKey, named, from + 1);
    }
  }

  /** What a chat event finds is the prompt in the oldest entry that is meant. */
  lemma FindsTheFirst(b: Bridge, sessionKey: string, named: Option<string>, run: string)
    ensures FindPending(b, sessionKey, named) == Some(run) <==> IsFirstMeant(b, sessionKey, named, run)
  {
    hide IsMeant;
    var i := FindStops(b, sessionKey, named, 0);
    if IsFirstMeant(b, sessionKey, named, run) {
      var k :| 0 <= k < |b.pending.order| && IsMeant(b, sessionKey, named, k) && RunAt(b, k) == Some(run)
               && forall j :: 0 <= j < k ==> !IsMeant(b, sessionKey, named, j);
      assert i == k;
    }
  }

  /** A terminal chat event with this run id, or none, arrives and `run` is what it means:
      in the oldest entry of the map for its session key and the named run. */
  ghost predicate Announces(s: System, e: Event, named: Option<string>, run: string)
  {
    && e.ChatArrives? && e.named == named && !e.state.Delta?
    && IsFirstMeant(s.bridge, e.sessionKey, named, run)
    && IsPending(s.bridge, run)
  }

  /** What a terminal chat state says of the prompt: a final one ends its turn, or says that the
      tokens were used up; an abort cancels it; an error ends its turn too. */
  predicate Says(state: ChatState, outcome: Outcome)
  {
    || (state == Final(true) && outcome == Resolved(MaxTokens))
    || (state == Final(false) && outcome == Resolved(EndTurn))
    || (state == Aborted && outcome == Resolved(Cancelled))
    || (state == ErrorState && outcome == Resolved(EndTurn))
  }

  /** The gateway's reply to a sweep's question about `run`, which is in the map. */
  predicate Replies(s: System, e: Event, run: string)
  {
    && e.WaitReturns?
    && e.task in s.tasks && s.tasks[e.task].SweepWaiting?
    && s.tasks[e.task].sweep.next < |s.tasks[e.task].sweep.snapshot|
    && s.tasks[e.task].sweep.snapshot[s.tasks[e.task].sweep.next].1 == run
    && IsPending(s.bridge, run)
  }

  /** The gateway answers that the run has ended. */
  predicate Answers(s: System, e: Event, run: string)
  {
    Replies(s, e, run) && (e.result == RunOk || e.result == RunError)
  }

  /** The client cancels the session in whose entry `run` is. */
  predicate Cancels(s: System, e: Event, run: string)
  {
    e.CancelArrives? && s.bridge.pending.Get(e.sessionId) == Some(run)
  }

  /** The send of `run` fails, for good, and is not left to the disconnect. */
  predicate Fails(s: System, e: Event, run: string)
  {
    && e.SendReturns? && e.sent != SendAccepted
    && e.task in s.tasks && s.tasks[e.task].Sending? && s.tasks[e.task].run == run
    && !(e.sent == ProvenanceRejected && s.tasks[e.task].provenance)
    && !(e.sent == GatewayClosed && IsPending(s.bridge, run))
  }

  /** A deadline sweep has no answer about `run`, which it asked about for this outage and
      which still carries it. */
  predicate Expires(s: System, e: Event, run: string, ctx: Context)
  {
    && Replies(s, e, run) && (e.result == WaitFailed || e.result == RunUnfinished)
    && s.tasks[e.task].sweep.deadlineExpired && s.tasks[e.task].ctx == ctx
    && s.bridge.prompts[run].disconnect == Some(ctx)
  }

  /** The prompt is not waited for any longer: its send was not acknowledged, or the
      outage lasts. */
  predicate IsGivenUp(b: Bridge, run: string, ctx: Context)
  {
    run in b.prompts && (!b.prompts[run].sendAccepted || b.active == Some(ctx))
  }

  /** What the run of the bridge says about a settlement. */
  ghost predicate Brings(s: System, e: Event, st: Settlement)
  {
    match st.cause
    case ChatEvent(named) => Announces(s, e, named, st.run) && Says(e.state, st.outcome)
    case WaitReply(asked) => asked == st.run && Answers(s, e, st.run) && st.outcome == Resolved(EndTurn)
    case CancelRequest => Cancels(s, e, st.run) && st.outcome == Resolved(Cancelled)
    case SendFailure => Fails(s, e, st.run) && st.outcome == RejectedSend
    case Deadline(generation) =>
      exists ctx: Context ::
        && ctx.generation == generation && Expires(s, e, st.run, ctx) && IsGivenUp(s.bridge, st.run, ctx)
        && st.outcome == RejectedDisconnected(ctx.reason)
  }

  /** The settlement a task will make, when it ends by making one. */
  function Purpose(t: Task): Option<Settlement>
  {
    match t
    case Streaming(run, named, stop) => Some(Settlement(run, Resolved(stop), ChatEvent(named)))
    case Finishing(run, stop, cause) => Some(Settlement(run, Resolved(stop), cause))
    case Cancelling(run) => Some(Settlement(run, Resolved(Cancelled), CancelRequest))
    case SweepFinishing(_, run) => Some(Settlement(run, Resolved(EndTurn), WaitReply(run)))
    case _ => None
  }

  ghost predicate Purposed(s: System, st: Settlement)
  {
    exists j :: j in s.tasks && Purpose(s.tasks[j]) == Some(st)
  }

  // ----- one step -----

  /** A task's purpose was there before, or this step brings it. */
  lemma PurposeOrigin(s: System, e: Event, k: nat)
    requires Inv(s) && Enabled(s, e) && k in Step(s, e).tasks && Purpose(Step(s, e).tasks[k]).Some?
    ensures var st := Purpose(Step(s, e).tasks[k]).value; Purposed(s, st) || Brings(s, e, st)
  {
    if Resumption(e) {
      ResumptionPurpose(s, e, k);
    } else if e.ChatArrives? {
      ChatPurpose(s, e, k);
    } else if e.GatewayUp? || e.TimerFires? {
      SweepPurpose(s, e, k);
    } else {
      ArrivalPurpose(s, e, k);
    }
  }

  lemma ChatPurpose(s: System, e: Event, k: nat)
    requires Inv(s) && e.ChatArrives? && k in Step(s, e).tasks && Purpose(Step(s, e).tasks[k]).Some?
    ensures var st := Purpose(Step(s, e).tasks[k]).value;
      (k in s.tasks && Purpose(s.tasks[k]) == Some(st)) || Brings(s, e, st)
  {
    hide TaskOk, OutagesOk, PendingCarryOutage, TimerOk, SettlementsOk, BeginFinish, IsFirstMeant;
    FoundIsPending(s.bridge, e.sessionKey, e.named);
    var found := FindPending(s.bridge, e.sessionKey, e.named);
    if found.Some? {
      FindsTheFirst(s.bridge, e.sessionKey, e.named, found.value);
    }
  }

  lemma ArrivalPurpose(s: System, e: Event, k: nat)
    requires Inv(s) && Enabled(s, e) && (e.PromptArrives? || e.CancelArrives? || e.GatewayDown?)
    requires k in Step(s, e).tasks && Purpose(Step(s, e).tasks[k]).Some?
    ensures var st := Purpose(Step(s, e).tasks[k]).value;
      (k in s.tasks && Purpose(s.tasks[k]) == Some(st)) || Brings(s, e, st)
  {
    hide TaskOk, BridgeOk, StartPrompt, Disconnect;
  }

  lemma SweepPurpose(s: System, e: Event, k: nat)
    requires Inv(s) && Enabled(s, e) && (e.GatewayUp? || e.TimerFires?)
    requires k in Step(s, e).tasks && Purpose(Step(s, e).tasks[k]).Some?
    ensures k in s.tasks && s.tasks[k] == Step(s, e).tasks[k]
  {
    hide BridgeOk, TaskOk, Entries, EndSweep, NextEligible;
  }

  lemma ResumptionPurpose(s: System, e: Event, k: nat)
    requires Inv(s) && Enabled(s, e) && Resumption(e) && k in Step(s, e).tasks && Purpose(Step(s, e).tasks[k]).Some?
    ensures var st := Purpose(Step(s, e).tasks[k]).value; Purposed(s, st) || Brings(s, e, st)
  {
    hide BridgeOk, Brings, Cleared, SweepOk;
    assert TaskOk(s.bridge, s.tasks[e.task]);
    if k != e.task && k < s.nextTask {
      ResumptionsLeaveOthers(s, e, e.task, k);
      assert Purpose(s.tasks[k]) == Purpose(Step(s, e).tasks[k]);
    } else if e.WaitReturns? {
      WaitPurpose(s, e, k);
    } else if e.StreamReturns? {
      assert Purpose(s.tasks[e.task]) == Purpose(Step(s, e).tasks[k]);
    }
  }

  lemma WaitPurpose(s: System, e: Event, k: nat)
    requires Inv(s) && Enabled(s, e) && e.WaitReturns? && k in Step(s, e).tasks && (k == e.task || k >= s.nextTask)
    requires Purpose(Step(s, e).tasks[k]).Some?
    ensures Brings(s, e, Purpose(Step(s, e).tasks[k]).value)
  {
    hide BridgeOk, Cleared, AtDeadline, BeginFinish;
    assert TaskOk(s.bridge, s.tasks[e.task]);
  }

  // ----- new settlements -----

  lemma OneMore(b: Bridge, later: Bridge, st: Settlement, n: nat)
    requires later.settlements == b.settlements + [st] && |b.settlements| <= n < |later.settlements|
    ensures later.settlements[n] == st
  {
  }

  /** At the deadline exactly the prompts given up that still carry the outage are rejected. */
  lemma RejectsTheGivenUp(b: Bridge, run: string, ctx: Context)
    requires BridgeOk(b) && KnownOutage(b, ctx) && run in b.prompts
    ensures ShouldReject(b, run, ctx) <==> b.prompts[run].disconnect == Some(ctx) && IsGivenUp(b, run, ctx)
  {
  }

  lemma WaitSettles(s: System, e: Event, n: nat)
    requires Inv(s) && Enabled(s, e) && e.WaitReturns?
    requires |s.bridge.settlements| <= n < |Step(s, e).bridge.settlements|
    ensures Brings(s, e, Step(s, e).bridge.settlements[n])
  {
    hide BridgeOk, Cleared, BeginFinish;
    var t := s.tasks[e.task];
    assert TaskOk(s.bridge, t);
    var run := t.sweep.snapshot[t.sweep.next].1;
    var st := Settlement(run, RejectedDisconnected(t.ctx.reason), Deadline(t.ctx.generation));
    OneMore(s.bridge, Step(s, e).bridge, st, n);
    RejectsTheGivenUp(s.bridge, run, t.ctx);
    assert Expires(s, e, run, t.ctx) && IsGivenUp(s.bridge, run, t.ctx);
  }

  lemma SendSettles(s: System, e: Event, n: nat)
    requires Inv(s) && Enabled(s, e) && e.SendReturns?
    requires |s.bridge.settlements| <= n < |Step(s, e).bridge.settlements|
    ensures Brings(s, e, Step(s, e).bridge.settlements[n])
  {
    hide BridgeOk, BeginFinish;
    assert TaskOk(s.bridge, s.tasks[e.task]);
    OneMore(s.bridge, Step(s, e).bridge, Settlement(s.tasks[e.task].run, RejectedSend, SendFailure), n);
  }

  /** A new settlement fulfils the purpose of a task, or this step brings it. */
  lemma SettlementOrigin(s: System, e: Event, n: nat)
    requires Inv(s) && Enabled(s, e)
    requires |s.bridge.settlements| <= n < |Step(s, e).bridge.settlements|
    ensures var st := Step(s, e).bridge.settlements[n]; Purposed(s, st) || Brings(s, e, st)
  {
    hide BridgeOk, Cleared, SweepOk, Brings;
    if e.WaitReturns? {
      WaitSettles(s, e, n);
    } else if e.SendReturns? {
      SendSettles(s, e, n);
    } else if Resumption(e) {
      var t := s.tasks[e.task];
      assert TaskOk(s.bridge, t);
      assert Purpose(t) == Some(Step(s, e).bridge.settlements[n]);
    } else {
      ArrivalsOnlySpawn(s, e, 0);
    }
  }

  // ----- over whole runs -----

  /** An earlier step of the run brought the settlement. */
  ghost predicate Brought(trace: seq<System>, events: seq<Event>, i: nat, st: Settlement)
    requires |trace| == |events| + 1 && i < |trace|
  {
    exists j :: 0 <= j < i && Brings(trace[j], events[j], st)
  }

  lemma BroughtLater(trace: seq<System>, events: seq<Event>, i: nat, st: Settlement)
    requires |trace| == |events| + 1 && i + 1 < |trace|
    requires Brought(trace, events, i, st) || Brings(trace[i], events[i], st)
    ensures Brought(trace, events, i + 1, st)
  {
  }

  lemma {:induction false} PurposesAreBrought(trace: seq<System>, events: seq<Event>, i: nat, k: nat)
    requires IsRun(trace, events) && i < |trace| && k in trace[i].tasks && Purpose(trace[i].tasks[k]).Some?
    ensures Brought(trace, events, i, Purpose(trace[i].tasks[k]).value)
    decreases i
  {
    hide Step, Inv, Brings, Purpose, Brought;
    if i > 0 {
      RunStep(trace, events, i - 1);
      PurposeOrigin(trace[i - 1], events[i - 1], k);
      var st := Purpose(trace[i].tasks[k]).value;
      if !Brings(trace[i - 1], events[i - 1], st) {
        var j :| j in trace[i - 1].tasks && Purpose(trace[i - 1].tasks[j]) == Some(st);
        PurposesAreBrought(trace, events, i - 1, j);
      }
      BroughtLater(trace, events, i - 1, st);
    }
  }

  /** Behind every settlement is an earlier event of the run, which determines its outcome. For
      a chat event it is a terminal one, with the run id the settlement names or none, that
      found the prompt in the map, and the prompt is resolved as its state says. For a wait
      reply it is the gateway's answer that the run a sweep asked about has ended, with the
      prompt in the map, and its turn has ended. For a cancel request it is a cancel of the
      session with the prompt in its entry, and the prompt is cancelled. For a failed send it
      is that send's failure. For a deadline it is a deadline sweep's unanswered question, with
      the prompt in the map, its send not acknowledged or the outage not over, and the prompt
      is rejected with the reason of the outage it carries. */
  lemma {:induction false} SettlementsAreBrought(trace: seq<System>, events: seq<Event>, i: nat, n: nat)
    requires IsRun(trace, events) && i < |trace| && n < |trace[i].bridge.settlements|
    ensures Brought(trace, events, i, trace[i].bridge.settlements[n])
    decreases i
  {
    hide Step, Inv, Brings, Purpose, Brought;
    if i > 0 {
      RunStep(trace, events, i - 1);
      var st := trace[i].bridge.settlements[n];
      if n < |trace[i - 1].bridge.settlements| {
        assert trace[i - 1].bridge.settlements[n] == st;
        SettlementsAreBrought(trace, events, i - 1, n);
      } else {
        SettlementOrigin(trace[i - 1], events[i - 1], n);
        if !Brings(trace[i - 1], events[i - 1], st) {
          var j :| j in trace[i - 1].tasks && Purpose(trace[i - 1].tasks[j]) == Some(st);
          PurposesAreBrought(trace, events, i - 1, j);
        }
      }
      BroughtLater(trace, events, i - 1, st);
    }
  }

  /** A chat event naming a run, or the gateway's answer about a run, settles that run
      and no other, even if the session's entry was replaced during an await: behind the
      settlement is an earlier event of the run that named it, or answered about it, while
      it was in the map; and the prompt is resolved as that event says. */
  lemma NamedRunIsTheOneSettled(trace: seq<System>, events: seq<Event>, i: nat, n: nat, run: string)
    requires IsRun(trace, events) && i < |trace| && n < |trace[i].bridge.settlements|
    requires trace[i].bridge.settlements[n].cause == ChatEvent(Some(run))
             || trace[i].bridge.settlements[n].cause == WaitReply(run)
    ensures var st := trace[i].bridge.settlements[n];
      && st.run == run
      && (st.cause.ChatEvent? ==>
            exists j :: 0 <= j < i && Announces(trace[j], events[j], Some(run), run)
                        && Says(events[j].state, st.outcome))
      && (st.cause.WaitReply? ==>
            st.outcome == Resolved(EndTurn) && exists j :: 0 <= j < i && Answers(trace[j], events[j], run))
  {
    hide Announces, Answers, Says;
    RunKeepsInv(trace, events, i);
    var st := trace[i].bridge.settlements[n];
    assert CauseNamesRun(st);
    SettlementsAreBrought(trace, events, i, n);
    var j :| 0 <= j < i && Brings(trace[j], events[j], st);
  }
}
