/** The bridge as a protocol: the pieces of asynchronous work that are waiting at an
    await, and the events that let one of them, or the outside world, run next. The
    theorems here are about every interleaving of those events. */
module BridgeProtocol {
  import opened Collections
  import opened GatewayBridge
  import opened BridgeInvariant

  /** Work suspended at an await, or ready to be resumed. */
  datatype Task =
    | Sending(run: string, provenance: bool)
    | Streaming(run: string, named: Option<string>, stop: StopReason)
    | Finishing(run: string, stop: StopReason, cause: Cause)
    | Cancelling(run: string)
    | SweepReady(sweep: Sweep)
    | SweepWaiting(sweep: Sweep, ctx: Context)
    | SweepFinishing(sweep: Sweep, run: string)

  datatype System = System(bridge: Bridge, tasks: map<nat, Task>, nextTask: nat)

  datatype SendResult = SendAccepted | ProvenanceRejected | GatewayClosed | SendFailed

  datatype WaitResult = WaitFailed | RunOk | RunError | RunUnfinished

  datatype ChatState = Delta | Final(maxTokens: bool) | Aborted | ErrorState

  datatype Event =
    | PromptArrives(sessionId: string, sessionKey: string, run: string, provenance: bool)
    | SendReturns(task: nat, sent: SendResult)
    | ChatArrives(sessionKey: string, named: Option<string>, state: ChatState, hasMessage: bool)
    | StreamReturns(task: nat, delivered: bool)
    | FinishReturns(task: nat)
    | CancelArrives(sessionId: string)
    | AbortReturns(task: nat)
    | GatewayDown(reason: string)
    | GatewayUp
    | TimerFires
    | WaitReturns(task: nat, result: WaitResult)
    | SweepFinishReturns(task: nat)
    | SweepResumes(task: nat)

  const START := System(INITIAL, map[], 0)

  function With(s: System, b: Bridge): System { s.(bridge := b) }

  function Put(s: System, k: nat, t: Task): System { s.(tasks := s.tasks[k := t]) }

  function Done(s: System, k: nat): System { s.(tasks := s.tasks - {k}) }

  function Spawn(s: System, t: Task): System
  {
    s.(tasks := s.tasks[s.nextTask := t], nextTask := s.nextTask + 1)
  }

  function Finish(s: System, run: string): (later: System)
    requires run in s.bridge.prompts
    ensures later.bridge.prompts == s.bridge.prompts && later.bridge.settlements == s.bridge.settlements
    ensures KeepsTimer(s.bridge, later.bridge)
  {
    With(s, BeginFinish(s.bridge, run))
  }

  // ----- sweeps -----

  /** A sweep about to look at its entry `sweep.next` runs until it awaits the gateway
      or returns. `k` is its task. */
  function RunSweep(s: System, k: nat, sw: Sweep): (later: System)
    requires sw.next <= |sw.snapshot|
    ensures later.bridge == s.bridge.(timer := later.bridge.timer)
  {
    var i := NextEligible(s.bridge, sw, sw.next);
    if i == |sw.snapshot| then Done(With(s, EndSweep(s.bridge, sw)), k)
    else Put(s, k, SweepWaiting(sw.(next := i), s.bridge.prompts[sw.snapshot[i].1].disconnect.value))
  }

  /** `reconcilePendingPrompts` is called; it runs up to its first await. */
  function StartSweep(s: System, generation: nat, deadlineExpired: bool): (later: System)
    requires s.bridge.pending.Valid()
    ensures later.bridge == s.bridge.(timer := later.bridge.timer)
  {
    if s.bridge.pending.Size() == 0 then
      With(s, if s.bridge.generation == generation then s.bridge.(timer := None) else s.bridge)
    else
      RunSweep(s.(nextTask := s.nextTask + 1), s.nextTask,
               Sweep(generation, deadlineExpired, Entries(s.bridge), 0, false))
  }

  function NextEntry(sw: Sweep, keep: bool): Task
  {
    SweepReady(sw.(next := sw.next + 1, keepTimer := sw.keepTimer || keep))
  }

  /** `reconcilePendingPrompt` after its `agent.wait` request. */
  function AfterWait(s: System, k: nat, sw: Sweep, ctx: Context, result: WaitResult): (later: System)
    requires sw.next < |sw.snapshot| && sw.snapshot[sw.next].1 in s.bridge.prompts
    ensures later.bridge.prompts.Keys == s.bridge.prompts.Keys && KeepsTimer(s.bridge, later.bridge)
  {
    var run := sw.snapshot[sw.next].1;
    if result != WaitFailed && !IsPending(s.bridge, run) then Put(s, k, NextEntry(sw, false))
    else match result
      case RunOk => Put(Finish(s, run), k, SweepFinishing(sw, run))
      case RunError => Spawn(Put(Finish(s, run), k, NextEntry(sw, false)), Finishing(run, EndTurn, WaitReply(run)))
      case _ =>
        if sw.deadlineExpired
        then Put(With(s, AtDeadline(s.bridge, run, ctx)), k, NextEntry(sw, false))
        else Put(s, k, NextEntry(sw, true))
  }

  // ----- the other tasks -----

  function AfterSend(s: System, k: nat, run: string, provenance: bool, sent: SendResult): (later: System)
    requires run in s.bridge.prompts
    ensures later.bridge.prompts.Keys == s.bridge.prompts.Keys && KeepsTimer(s.bridge, later.bridge)
  {
    match sent
    case SendAccepted => Done(With(s, AcceptSend(s.bridge, run)), k)
    case _ =>
      if sent == ProvenanceRejected && provenance then Put(s, k, Sending(run, false))
      else if sent == GatewayClosed && IsPending(s.bridge, run) then Done(s, k)
      else Done(With(s, FailSend(s.bridge, run, sent == GatewayClosed)), k)
  }

  function ChatEventArrives(s: System, sessionKey: string, named: Option<string>, state: ChatState, hasMessage: bool)
    : (later: System)
    ensures later.bridge.prompts == s.bridge.prompts && later.bridge.settlements == s.bridge.settlements
    ensures KeepsTimer(s.bridge, later.bridge)
  {
    match FindPending(s.bridge, sessionKey, named)
    case None => s
    case Some(run) =>
      match state
      case Delta => s
      case Final(maxTokens) =>
        var stop := if maxTokens then MaxTokens else EndTurn;
        if hasMessage then Spawn(s, Streaming(run, named, stop))
        else Spawn(Finish(s, run), Finishing(run, stop, ChatEvent(named)))
      case Aborted => Spawn(Finish(s, run), Finishing(run, Cancelled, ChatEvent(named)))
      case ErrorState => Spawn(Finish(s, run), Finishing(run, EndTurn, ChatEvent(named)))
  }

  // ----- the transition relation -----

  predicate Enabled(s: System, e: Event)
  {
    match e
    case PromptArrives(_, _, run, _) => run !in s.bridge.prompts
    case SendReturns(k, _) => k in s.tasks && s.tasks[k].Sending?
    case StreamReturns(k, _) => k in s.tasks && s.tasks[k].Streaming?
    case FinishReturns(k) => k in s.tasks && s.tasks[k].Finishing?
    case AbortReturns(k) => k in s.tasks && s.tasks[k].Cancelling?
    case WaitReturns(k, _) => k in s.tasks && s.tasks[k].SweepWaiting?
    case SweepFinishReturns(k) => k in s.tasks && s.tasks[k].SweepFinishing?
    case SweepResumes(k) => k in s.tasks && s.tasks[k].SweepReady?
    case TimerFires => s.bridge.timer.Some?
    case _ => true
  }

  function Step(s: System, e: Event): System
    requires Inv(s) && Enabled(s, e)
  {
    match e
    case PromptArrives(sessionId, sessionKey, run, provenance) =>
      Spawn(With(s, StartPrompt(s.bridge, sessionId, sessionKey, run)), Sending(run, provenance))
    case SendReturns(k, sent) => AfterSend(s, k, s.tasks[k].run, s.tasks[k].provenance, sent)
    case ChatArrives(sessionKey, named, state, hasMessage) => ChatEventArrives(s, sessionKey, named, state, hasMessage)
    case StreamReturns(k, delivered) =>
      var t := s.tasks[k];
      if delivered then Put(Finish(s, t.run), k, Finishing(t.run, t.stop, ChatEvent(t.named))) else Done(s, k)
    case FinishReturns(k) =>
      var t := s.tasks[k];
      Done(With(s, Settle(s.bridge, t.run, Resolved(t.stop), t.cause)), k)
    case CancelArrives(sessionId) =>
      (match s.bridge.pending.Get(sessionId)
       case None => s
       case Some(run) => Spawn(s, Cancelling(run)))
    case AbortReturns(k) =>
      Done(With(s, FinishCancel(s.bridge, s.tasks[k].run)), k)
    case GatewayDown(reason) => With(s, Disconnect(s.bridge, reason))
    case GatewayUp =>
      (match s.bridge.active
       case None => s
       case Some(ctx) => StartSweep(With(s, s.bridge.(active := None)), ctx.generation, false))
    case TimerFires => StartSweep(With(s, s.bridge.(timer := None)), s.bridge.timer.value, true)
    case WaitReturns(k, result) => AfterWait(s, k, s.tasks[k].sweep, s.tasks[k].ctx, result)
    case SweepFinishReturns(k) =>
      var t := s.tasks[k];
      Put(With(s, Settle(s.bridge, t.run, Resolved(EndTurn), WaitReply(t.run))), k, NextEntry(t.sweep, false))
    case SweepResumes(k) => RunSweep(s, k, s.tasks[k].sweep)
  }

  // ----- the invariant -----

  /** Every entry of the sweep below `upTo` has left the map, if the sweep is a
      deadline's and its outage still lasts. */
  ghost predicate Cleared(b: Bridge, sw: Sweep, upTo: nat)
  {
    sw.deadlineExpired && b.active.Some? && b.active.value.generation == sw.generation ==>
      forall j :: 0 <= j < upTo && j < |sw.snapshot| ==> !IsPending(b, sw.snapshot[j].1)
  }

  ghost predicate SweepOk(b: Bridge, sw: Sweep)
  {
    && sw.next <= |sw.snapshot|
    && 1 <= sw.generation <= |b.outages|
    && (forall j :: 0 <= j < |sw.snapshot| ==>
          sw.snapshot[j].1 in b.prompts && b.prompts[sw.snapshot[j].1].sessionId == sw.snapshot[j].0)
    && (sw.deadlineExpired ==> !sw.keepTimer)
    && (!sw.deadlineExpired ==> b.active.None? || b.active.value.generation != sw.generation)
  }

  ghost predicate TaskOk(b: Bridge, t: Task)
  {
    match t
    case Sending(run, _) => run in b.prompts
    case Streaming(run, named, _) => run in b.prompts && (named.Some? ==> named.value == run)
    case Finishing(run, stop, cause) =>
      run in b.prompts && !IsPending(b, run) && CauseNamesRun(Settlement(run, Resolved(stop), cause))
      && (cause.ChatEvent? || cause.WaitReply?)
    case Cancelling(run) => run in b.prompts
    case SweepReady(sw) => SweepOk(b, sw) && Cleared(b, sw, sw.next)
    case SweepWaiting(sw, ctx) =>
      && SweepOk(b, sw) && Cleared(b, sw, sw.next) && sw.next < |sw.snapshot|
      && KnownOutage(b, ctx) && ctx.generation == sw.generation
    case SweepFinishing(sw, run) =>
      && SweepOk(b, sw) && Cleared(b, sw, sw.next) && sw.next < |sw.snapshot|
      && sw.snapshot[sw.next].1 == run && !IsPending(b, run)
  }

  ghost predicate Inv(s: System)
  {
    && BridgeOk(s.bridge)
    && (forall k :: k in s.tasks ==> k < s.nextTask)
    && (forall k :: k in s.tasks ==> TaskOk(s.bridge, s.tasks[k]))
  }

  lemma StartHoldsInv()
    ensures Inv(START)
  {
    InitialOk();
  }

  /** Whatever else happens, a suspended task's assumptions survive. */
  lemma TaskOkExtends(b: Bridge, later: Bridge, t: Task)
    requires OutagesOk(b) && Extends(b, later) && TaskOk(b, t)
    ensures TaskOk(later, t)
  {
    if t.SweepReady? || t.SweepWaiting? || t.SweepFinishing? {
      assert SweepOk(later, t.sweep);
      assert Cleared(later, t.sweep, t.sweep.next);
    }
  }

  /** A new bridge state under the same tasks. */
  lemma BridgeMoves(s: System, after: System)
    requires Inv(s) && BridgeOk(after.bridge) && Extends(s.bridge, after.bridge)
    requires after.nextTask == s.nextTask && after.tasks == s.tasks
    ensures Inv(after)
  {
    forall k | k in after.tasks
      ensures TaskOk(after.bridge, after.tasks[k])
    {
      TaskOkExtends(s.bridge, after.bridge, s.tasks[k]);
    }
  }

  lemma PutKeeps(s: System, k: nat, t: Task)
    requires Inv(s) && k in s.tasks && TaskOk(s.bridge, t)
    ensures Inv(Put(s, k, t))
  {
  }

  lemma SpawnKeeps(s: System, t: Task)
    requires Inv(s) && TaskOk(s.bridge, t)
    ensures Inv(Spawn(s, t))
  {
  }

  // ----- every step keeps the invariant -----

  lemma FinishKeeps(s: System, run: string)
    requires Inv(s) && run in s.bridge.prompts
    ensures Inv(Finish(s, run)) && Extends(s.bridge, Finish(s, run).bridge)
    ensures !IsPending(Finish(s, run).bridge, run)
  {
    RemoveSessionKeeps(s.bridge, s.bridge.prompts[run].sessionId);
    BridgeMoves(s, Finish(s, run));
  }

  /** Another prompt's entry is taken away and `run` is settled at once. */
  lemma FinishAndSettleKeeps(s: System, run: string, outcome: Outcome, cause: Cause)
    requires Inv(s) && run in s.bridge.prompts && CauseNamesRun(Settlement(run, outcome, cause))
    ensures var after := With(s, Settle(BeginFinish(s.bridge, run), run, outcome, cause));
            Inv(after) && Extends(s.bridge, after.bridge)
  {
    RemoveAndSettleKeeps(s.bridge, run, outcome, cause);
    BridgeMoves(s, With(s, Settle(BeginFinish(s.bridge, run), run, outcome, cause)));
  }

  lemma SettleTaskKeeps(s: System, run: string, outcome: Outcome, cause: Cause)
    requires Inv(s) && run in s.bridge.prompts && CauseNamesRun(Settlement(run, outcome, cause))
    ensures var after := With(s, Settle(s.bridge, run, outcome, cause));
            Inv(after) && Extends(s.bridge, after.bridge)
  {
    SettleKeeps(s.bridge, run, outcome, cause);
    BridgeMoves(s, With(s, Settle(s.bridge, run, outcome, cause)));
  }

  lemma RunSweepKeeps(s: System, k: nat, sw: Sweep)
    requires BridgeOk(s.bridge) && k < s.nextTask
    requires forall i :: i in s.tasks ==> i < s.nextTask
    requires forall i :: i in s.tasks && i != k ==> TaskOk(s.bridge, s.tasks[i])
    requires SweepOk(s.bridge, sw) && Cleared(s.bridge, sw, sw.next)
    ensures Inv(RunSweep(s, k, sw)) && Extends(s.bridge, RunSweep(s, k, sw).bridge)
  {
    var i := NextEligible(s.bridge, sw, sw.next);
    if i == |sw.snapshot| {
      assert Inv(Done(s, k));
      EndSweepKeeps(s.bridge, sw);
      BridgeMoves(Done(s, k), RunSweep(s, k, sw));
    } else {
      SkippedAreGone(s.bridge, sw, i);
      var t := SweepWaiting(sw.(next := i), s.bridge.prompts[sw.snapshot[i].1].disconnect.value);
      assert TaskOk(s.bridge, t);
    }
  }

  /** While the sweep's outage lasts, an entry it skips has left the map. */
  lemma SkippedAreGone(b: Bridge, sw: Sweep, upTo: nat)
    requires BridgeOk(b) && SweepOk(b, sw) && Cleared(b, sw, sw.next)
    requires sw.next <= upTo <= |sw.snapshot|
    requires forall j :: sw.next <= j < upTo ==> !Eligible(b, sw.generation, sw.snapshot[j])
    ensures Cleared(b, sw, upTo)
  {
    if sw.deadlineExpired && b.active.Some? && b.active.value.generation == sw.generation {
      forall j | 0 <= j < upTo
        ensures !IsPending(b, sw.snapshot[j].1)
      {
        if sw.next <= j {
          assert !Eligible(b, sw.generation, sw.snapshot[j]);
        }
      }
    }
  }

  lemma StartSweepKeeps(s: System, generation: nat, deadlineExpired: bool)
    requires Inv(s) && 1 <= generation <= |s.bridge.outages| && (deadlineExpired || s.bridge.active.None?)
    ensures Inv(StartSweep(s, generation, deadlineExpired))
    ensures Extends(s.bridge, StartSweep(s, generation, deadlineExpired).bridge)
  {
    if s.bridge.pending.Size() == 0 {
      var after := StartSweep(s, generation, deadlineExpired);
      assert forall r :: IsPending(after.bridge, r) <==> IsPending(s.bridge, r);
      BridgeMoves(s, after);
    } else {
      var sw := Sweep(generation, deadlineExpired, Entries(s.bridge), 0, false);
      RunSweepKeeps(s.(nextTask := s.nextTask + 1), s.nextTask, sw);
    }
  }

  lemma AfterWaitKeeps(s: System, k: nat, sw: Sweep, ctx: Context, result: WaitResult)
    requires Inv(s) && k in s.tasks && s.tasks[k] == SweepWaiting(sw, ctx)
    ensures Inv(AfterWait(s, k, sw, ctx, result)) && Extends(s.bridge, AfterWait(s, k, sw, ctx, result).bridge)
  {
    hide TaskOk, BridgeOk, BeginFinish, AtDeadline, Extends;
    Waits(s.bridge, sw, ctx);
    ExtendsSelf(s.bridge);
    var run := sw.snapshot[sw.next].1;
    if result != WaitFailed && !IsPending(s.bridge, run) {
      EntryGone(s.bridge, s.bridge, sw, ctx);
      PutKeeps(s, k, NextEntry(sw, false));
    } else if result == RunOk || result == RunError {
      FinishKeeps(s, run);
      EntryGone(s.bridge, Finish(s, run).bridge, sw, ctx);
      if result == RunOk {
        PutKeeps(Finish(s, run), k, SweepFinishing(sw, run));
      } else {
        PutKeeps(Finish(s, run), k, NextEntry(sw, false));
        SpawnKeeps(Put(Finish(s, run), k, NextEntry(sw, false)), Finishing(run, EndTurn, WaitReply(run)));
      }
    } else if sw.deadlineExpired {
      AtDeadlineKeeps(s.bridge, run, ctx);
      BridgeMoves(s, With(s, AtDeadline(s.bridge, run, ctx)));
      DeadlineClears(s.bridge, sw, ctx);
      PutKeeps(With(s, AtDeadline(s.bridge, run, ctx)), k, NextEntry(sw, false));
    } else {
      PutKeeps(s, k, NextEntry(sw, true));
    }
  }

  lemma ExtendsSelf(b: Bridge)
    ensures Extends(b, b)
  {
  }

  /** A waiting sweep asks about a prompt, for an outage that was; if it is no deadline's, it
      may go on to its next entry. */
  lemma Waits(b: Bridge, sw: Sweep, ctx: Context)
    requires BridgeOk(b) && TaskOk(b, SweepWaiting(sw, ctx))
    ensures OutagesOk(b) && KnownOutage(b, ctx) && ctx.generation == sw.generation
    ensures sw.next < |sw.snapshot| && sw.snapshot[sw.next].1 in b.prompts
    ensures !sw.deadlineExpired ==> TaskOk(b, NextEntry(sw, true))
  {
  }

  /** Once the prompt the sweep asked about has left the map, the sweep may move on. */
  lemma EntryGone(b: Bridge, later: Bridge, sw: Sweep, ctx: Context)
    requires OutagesOk(b) && TaskOk(b, SweepWaiting(sw, ctx)) && Extends(b, later)
    requires !IsPending(later, sw.snapshot[sw.next].1)
    ensures TaskOk(later, NextEntry(sw, false)) && TaskOk(later, SweepFinishing(sw, sw.snapshot[sw.next].1))
    ensures TaskOk(later, Finishing(sw.snapshot[sw.next].1, EndTurn, WaitReply(sw.snapshot[sw.next].1)))
  {
    TaskOkExtends(b, later, SweepWaiting(sw, ctx));
    assert Cleared(later, sw, sw.next + 1);
  }

  lemma DeadlineClears(b: Bridge, sw: Sweep, ctx: Context)
    requires BridgeOk(b) && TaskOk(b, SweepWaiting(sw, ctx))
    ensures TaskOk(AtDeadline(b, sw.snapshot[sw.next].1, ctx), NextEntry(sw, false))
  {
    var later := AtDeadline(b, sw.snapshot[sw.next].1, ctx);
    AtDeadlineKeeps(b, sw.snapshot[sw.next].1, ctx);
    if later.active.Some? && later.active.value.generation == sw.generation {
      EntryGone(b, later, sw, ctx);
    } else {
      TaskOkExtends(b, later, SweepWaiting(sw, ctx));
    }
  }

  lemma AfterSendKeeps(s: System, k: nat, sent: SendResult)
    requires Inv(s) && k in s.tasks && s.tasks[k].Sending?
    ensures var after := AfterSend(s, k, s.tasks[k].run, s.tasks[k].provenance, sent);
            Inv(after) && Extends(s.bridge, after.bridge)
  {
    hide BridgeOk, Extends, AcceptSend, BeginFinish, Settle;
    ExtendsSelf(s.bridge);
    var run := s.tasks[k].run;
    assert TaskOk(s.bridge, s.tasks[k]);
    if sent == SendAccepted {
      AcceptSendKeeps(s.bridge, run);
      BridgeMoves(s, With(s, AcceptSend(s.bridge, run)));
    } else if !(sent == ProvenanceRejected && s.tasks[k].provenance) {
      FinishAndSettleKeeps(s, run, RejectedSend, SendFailure);
    }
  }

  lemma ChatKeeps(s: System, sessionKey: string, named: Option<string>, state: ChatState, hasMessage: bool)
    requires Inv(s)
    ensures var after := ChatEventArrives(s, sessionKey, named, state, hasMessage);
            Inv(after) && Extends(s.bridge, after.bridge)
  {
    var found := FindPending(s.bridge, sessionKey, named);
    if found.Some? && !state.Delta? {
      var run := found.value;
      var stop := if state.Aborted? then Cancelled else if state.Final? && state.maxTokens then MaxTokens else EndTurn;
      if state.Final? && hasMessage {
        SpawnKeeps(s, Streaming(run, named, stop));
      } else {
        FinishKeeps(s, run);
        SpawnKeeps(Finish(s, run), Finishing(run, stop, ChatEvent(named)));
      }
    }
  }

  /** The invariant is inductive, and every step leads to an extension. */
  lemma StepKeeps(s: System, e: Event)
    requires Inv(s) && Enabled(s, e)
    ensures Inv(Step(s, e)) && Extends(s.bridge, Step(s, e).bridge)
  {
    match e
    case PromptArrives(sessionId, sessionKey, run, provenance) =>
      StartPromptKeeps(s.bridge, sessionId, sessionKey, run);
      var started := With(s, StartPrompt(s.bridge, sessionId, sessionKey, run));
      BridgeMoves(s, started);
      SpawnKeeps(started, Sending(run, provenance));
    case SendReturns(k, sent) => AfterSendKeeps(s, k, sent);
    case ChatArrives(sessionKey, named, state, hasMessage) => ChatKeeps(s, sessionKey, named, state, hasMessage);
    case GatewayDown(reason) =>
      DisconnectKeeps(s.bridge, reason);
      BridgeMoves(s, Step(s, e));
    case GatewayUp => GatewayUpKeeps(s);
    case TimerFires => TimerFiresKeeps(s);
    case CancelArrives(sessionId) =>
      if sessionId in s.bridge.pending.entries {
        SpawnKeeps(s, Cancelling(s.bridge.pending.entries[sessionId]));
      }
    case _ => ResumptionKeeps(s, e);
  }

  lemma ResumptionKeeps(s: System, e: Event)
    requires Inv(s) && Enabled(s, e)
    requires e.StreamReturns? || e.FinishReturns? || e.AbortReturns? || e.WaitReturns? || e.SweepFinishReturns?
             || e.SweepResumes?
    ensures Inv(Step(s, e)) && Extends(s.bridge, Step(s, e).bridge)
  {
    var t := s.tasks[e.task];
    assert TaskOk(s.bridge, t);
    match e
    case StreamReturns(k, delivered) =>
      if delivered {
        FinishKeeps(s, t.run);
        PutKeeps(Finish(s, t.run), k, Finishing(t.run, t.stop, ChatEvent(t.named)));
      }
    case FinishReturns(k) => SettleTaskKeeps(s, t.run, Resolved(t.stop), t.cause);
    case AbortReturns(k) => FinishAndSettleKeeps(s, t.run, Resolved(Cancelled), CancelRequest);
    case WaitReturns(k, result) => AfterWaitKeeps(s, k, t.sweep, t.ctx, result);
    case SweepFinishReturns(k) => SweepFinishKeeps(s, k);
    case SweepResumes(k) => RunSweepKeeps(s, k, t.sweep);
  }

  lemma SweepFinishKeeps(s: System, k: nat)
    requires Inv(s) && Enabled(s, SweepFinishReturns(k))
    ensures Inv(Step(s, SweepFinishReturns(k))) && Extends(s.bridge, Step(s, SweepFinishReturns(k)).bridge)
  {
    hide BridgeOk, TaskOk, Extends, Settle;
    var t := s.tasks[k];
    FinishedMovesOn(s.bridge, t.sweep, t.run);
    SettleTaskKeeps(s, t.run, Resolved(EndTurn), WaitReply(t.run));
    var settled := With(s, Settle(s.bridge, t.run, Resolved(EndTurn), WaitReply(t.run)));
    assert TaskOk(settled.bridge, t);
    FinishedMovesOn(settled.bridge, t.sweep, t.run);
    PutKeeps(settled, k, NextEntry(t.sweep, false));
  }

  lemma FinishedMovesOn(b: Bridge, sw: Sweep, run: string)
    requires TaskOk(b, SweepFinishing(sw, run))
    ensures run in b.prompts && TaskOk(b, NextEntry(sw, false))
  {
    assert Cleared(b, sw, sw.next + 1);
  }

  lemma GatewayUpKeeps(s: System)
    requires Inv(s)
    ensures Inv(Step(s, GatewayUp)) && Extends(s.bridge, Step(s, GatewayUp).bridge)
  {
    if s.bridge.active.Some? {
      var up := With(s, s.bridge.(active := None));
      assert forall r :: IsPending(up.bridge, r) <==> IsPending(s.bridge, r);
      BridgeMoves(s, up);
      StartSweepKeeps(up, s.bridge.active.value.generation, false);
      ExtendsTransitive(s.bridge, up.bridge, Step(s, GatewayUp).bridge);
    }
  }

  lemma TimerFiresKeeps(s: System)
    requires Inv(s) && Enabled(s, TimerFires)
    ensures Inv(Step(s, TimerFires)) && Extends(s.bridge, Step(s, TimerFires).bridge)
  {
    var fired := With(s, s.bridge.(timer := None));
    assert forall r :: IsPending(fired.bridge, r) <==> IsPending(s.bridge, r);
    BridgeMoves(s, fired);
    StartSweepKeeps(fired, s.bridge.timer.value, true);
    ExtendsTransitive(s.bridge, fired.bridge, Step(s, TimerFires).bridge);
  }
}
