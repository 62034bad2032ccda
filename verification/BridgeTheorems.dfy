/** What holds over every run of the bridge, whatever interleaves at its awaits. */
module BridgeTheorems {
  import opened Collections
  import opened GatewayBridge
  import opened BridgeInvariant
  import opened BridgeProtocol

  /** A finite run from the start. `Step` is only defined on states that satisfy the
      invariant; `RunKeepsInv` shows that a run never leaves them. */
  ghost predicate IsRun(trace: seq<System>, events: seq<Event>)
  {
    && |trace| == |events| + 1
    && trace[0] == START
    && forall i {:trigger events[i]} :: 0 <= i < |events| ==>
         Enabled(trace[i], events[i]) && (Inv(trace[i]) ==> trace[i + 1] == Step(trace[i], events[i]))
  }

  lemma {:induction false} RunKeepsInv(trace: seq<System>, events: seq<Event>, i: nat)
    requires IsRun(trace, events) && i < |trace|
    ensures Inv(trace[i])
  {
    if i == 0 {
      StartHoldsInv();
    } else {
      RunKeepsInv(trace, events, i - 1);
      assert Enabled(trace[i - 1], events[i - 1]);
      StepKeeps(trace[i - 1], events[i - 1]);
    }
  }

  lemma RunStep(trace: seq<System>, events: seq<Event>, i: nat)
    requires IsRun(trace, events) && i < |events|
    ensures Inv(trace[i]) && Enabled(trace[i], events[i]) && trace[i + 1] == Step(trace[i], events[i])
    ensures Inv(trace[i + 1]) && Extends(trace[i].bridge, trace[i + 1].bridge)
  {
    RunKeepsInv(trace, events, i);
    assert Enabled(trace[i], events[i]);
    StepKeeps(trace[i], events[i]);
  }

  ghost predicate Reachable(s: System)
  {
    exists trace, events :: IsRun(trace, events) && trace[|trace| - 1] == s
  }

  lemma StartIsReachable()
    ensures Reachable(START)
  {
    assert IsRun([START], []);
  }

  lemma ReachableInv(s: System)
    requires Reachable(s)
    ensures Inv(s)
  {
    var trace, events :| IsRun(trace, events) && trace[|trace| - 1] == s;
    RunKeepsInv(trace, events, |trace| - 1);
  }

  lemma ReachableStep(s: System, e: Event)
    requires Reachable(s) && Enabled(s, e)
    ensures Inv(s) && Reachable(Step(s, e)) && Inv(Step(s, e))
  {
    hide Inv, Enabled, Step;
    ReachableInv(s);
    var trace, events :| IsRun(trace, events) && trace[|trace| - 1] == s;
    var longer, all := trace + [Step(s, e)], events + [e];
    forall i {:trigger all[i]} | 0 <= i < |all|
      ensures Enabled(longer[i], all[i]) && (Inv(longer[i]) ==> longer[i + 1] == Step(longer[i], all[i]))
    {
      if i < |events| {
        assert events[i] == all[i] && trace[i] == longer[i] && trace[i + 1] == longer[i + 1];
      }
    }
    assert IsRun(longer, all) && longer[|longer| - 1] == Step(s, e);
    StepKeeps(s, e);
  }

  // ----- outages -----

  /** While the gateway is down, the active context carries the current generation and
      every prompt in the map holds exactly that context; contexts of one generation
      are one context; and an armed timer belongs to the outage that lasts. */
  lemma PendingPromptsCarryTheOutage(trace: seq<System>, events: seq<Event>, i: nat)
    requires IsRun(trace, events) && i < |trace|
    ensures var b := trace[i].bridge;
      && (b.active.Some? ==>
            && b.active.value.generation == b.generation
            && (forall sid :: sid in b.pending.entries ==>
                  b.pending.entries[sid] in b.prompts && b.prompts[b.pending.entries[sid]].disconnect == b.active)
            && (b.timer.Some? ==> b.timer.value == b.generation))
      && (forall p, q :: p in b.prompts && q in b.prompts
            && b.prompts[p].disconnect.Some? && b.prompts[q].disconnect.Some?
            && b.prompts[p].disconnect.value.generation == b.prompts[q].disconnect.value.generation
            ==> b.prompts[p].disconnect == b.prompts[q].disconnect)
      && (b.timer.Some? ==> b.pending.entries != map[])
  {
    RunKeepsInv(trace, events, i);
    var b := trace[i].bridge;
    forall sid | sid in b.pending.entries && b.active.Some?
      ensures b.prompts[b.pending.entries[sid]].disconnect == b.active
    {
      assert IsPending(b, b.pending.entries[sid]);
    }
  }

  /** `st` rejects a prompt that is in the map of `b`, for the outage it carries; if
      its send was accepted, that outage lasts in `b`. */
  ghost predicate DeadlineRejectionOk(b: Bridge, st: Settlement)
  {
    && IsPending(b, st.run)
    && b.prompts[st.run].disconnect.Some?
    && var ctx := b.prompts[st.run].disconnect.value;
    && st.cause == Deadline(ctx.generation)
    && st.outcome == RejectedDisconnected(ctx.reason)
    && (b.prompts[st.run].sendAccepted ==> b.active == Some(ctx))
  }

  /** `later` has at most one settlement more than `b`, and it is no deadline's. */
  ghost predicate NoDeadlineRejection(b: Bridge, later: Bridge)
  {
    || later.settlements == b.settlements
    || (exists st: Settlement :: !st.cause.Deadline? && later.settlements == b.settlements + [st])
  }

  lemma AddsOne(b: Bridge, later: Bridge, st: Settlement)
    requires later.settlements == b.settlements + [st] && !st.cause.Deadline?
    ensures NoDeadlineRejection(b, later)
  {
  }

  predicate Resumption(e: Event)
  {
    e.SendReturns? || e.StreamReturns? || e.FinishReturns? || e.AbortReturns? || e.WaitReturns?
    || e.SweepFinishReturns? || e.SweepResumes?
  }

  predicate Resumes(e: Event, k: nat)
  {
    Resumption(e) && e.task == k
  }

  /** Nothing is settled and task `k`, if it was there, is left alone. */
  ghost predicate OnlySpawns(s: System, after: System, k: nat)
  {
    && after.bridge.settlements == s.bridge.settlements
    && (k < s.nextTask ==>
          && k < after.nextTask
          && (k in after.tasks <==> k in s.tasks)
          && (k in s.tasks ==> after.tasks[k] == s.tasks[k]))
  }

  lemma StartSweepOnlySpawns(s: System, generation: nat, deadlineExpired: bool, k: nat)
    requires s.bridge.pending.Valid()
    ensures OnlySpawns(s, StartSweep(s, generation, deadlineExpired), k)
  {
  }

  lemma ChatOnlySpawns(s: System, sessionKey: string, named: Option<string>, state: ChatState, hasMessage: bool, k: nat)
    ensures OnlySpawns(s, ChatEventArrives(s, sessionKey, named, state, hasMessage), k)
  {
  }

  /** What arrives from outside starts work; only resumed work settles prompts. */
  lemma ArrivalsOnlySpawn(s: System, e: Event, k: nat)
    requires Inv(s) && Enabled(s, e) && !Resumption(e)
    ensures OnlySpawns(s, Step(s, e), k)
  {
    match e
    case ChatArrives(sessionKey, named, state, hasMessage) =>
      ChatOnlySpawns(s, sessionKey, named, state, hasMessage, k);
    case GatewayUp =>
      if s.bridge.active.Some? {
        StartSweepOnlySpawns(With(s, s.bridge.(active := None)), s.bridge.active.value.generation, false, k);
      }
    case TimerFires => StartSweepOnlySpawns(With(s, s.bridge.(timer := None)), s.bridge.timer.value, true, k);
    case _ =>
  }

  lemma SendRejectsByFailure(s: System, e: Event)
    requires Inv(s) && Enabled(s, e) && e.SendReturns?
    ensures NoDeadlineRejection(s.bridge, Step(s, e).bridge)
  {
    assert TaskOk(s.bridge, s.tasks[e.task]);
    if Step(s, e).bridge.settlements != s.bridge.settlements {
      AddsOne(s.bridge, Step(s, e).bridge, Settlement(s.tasks[e.task].run, RejectedSend, SendFailure));
    }
  }

  lemma ResumptionRejectsNobody(s: System, e: Event)
    requires Inv(s) && Enabled(s, e)
    requires e.StreamReturns? || e.FinishReturns? || e.AbortReturns? || e.SweepFinishReturns? || e.SweepResumes?
    ensures NoDeadlineRejection(s.bridge, Step(s, e).bridge)
  {
    var t := s.tasks[e.task];
    var later := Step(s, e).bridge;
    assert TaskOk(s.bridge, t);
    if e.FinishReturns? {
      AddsOne(s.bridge, later, Settlement(t.run, Resolved(t.stop), t.cause));
    } else if e.AbortReturns? {
      AddsOne(s.bridge, later, Settlement(t.run, Resolved(Cancelled), CancelRequest));
    } else if e.SweepFinishReturns? {
      AddsOne(s.bridge, later, Settlement(t.run, Resolved(EndTurn), WaitReply(t.run)));
    }
  }

  /** Only the reply to a deadline sweep's question rejects for a deadline. */
  lemma WaitRejects(s: System, k: nat, result: WaitResult)
    requires Inv(s) && Enabled(s, WaitReturns(k, result))
    ensures var later := Step(s, WaitReturns(k, result)).bridge;
      || later.settlements == s.bridge.settlements
      || (exists st :: DeadlineRejectionOk(s.bridge, st) && later.settlements == s.bridge.settlements + [st])
  {
    var t := s.tasks[k];
    assert TaskOk(s.bridge, t);
    var later := Step(s, WaitReturns(k, result)).bridge;
    var run := t.sweep.snapshot[t.sweep.next].1;
    if later.settlements != s.bridge.settlements {
      var st := Settlement(run, RejectedDisconnected(t.ctx.reason), Deadline(t.ctx.generation));
      assert later.settlements == s.bridge.settlements + [st];
      assert DeadlineRejectionOk(s.bridge, st);
    }
  }

  lemma DeadlineStep(s: System, e: Event)
    requires Inv(s) && Enabled(s, e)
    ensures var later := Step(s, e).bridge;
      || NoDeadlineRejection(s.bridge, later)
      || (exists st :: DeadlineRejectionOk(s.bridge, st) && later.settlements == s.bridge.settlements + [st])
  {
    match e
    case SendReturns(_, _) => SendRejectsByFailure(s, e);
    case WaitReturns(k, result) => WaitRejects(s, k, result);
    case StreamReturns(_, _) => ResumptionRejectsNobody(s, e);
    case FinishReturns(_) => ResumptionRejectsNobody(s, e);
    case AbortReturns(_) => ResumptionRejectsNobody(s, e);
    case SweepFinishReturns(_) => ResumptionRejectsNobody(s, e);
    case SweepResumes(_) => ResumptionRejectsNobody(s, e);
    case _ => ArrivalsOnlySpawn(s, e, 0);
  }

  /** A prompt whose send was accepted is rejected by a deadline only during the outage
      that deadline belongs to: not after a reconnect, and not in a later outage. */
  lemma AcceptedPromptsAreRejectedOnlyInTheirOutage(trace: seq<System>, events: seq<Event>, i: nat, n: nat)
    requires IsRun(trace, events) && i < |events|
    requires |trace[i].bridge.settlements| <= n < |trace[i + 1].bridge.settlements|
    requires trace[i + 1].bridge.settlements[n].cause.Deadline?
    ensures var b := trace[i].bridge;
      var st := trace[i + 1].bridge.settlements[n];
      && IsPending(b, st.run)
      && (b.prompts[st.run].sendAccepted ==>
            && b.active.Some?
            && b.active.value.generation == b.generation == st.cause.generation
            && st.outcome == RejectedDisconnected(b.active.value.reason))
  {
    RunStep(trace, events, i);
    DeadlineStep(trace[i], events[i]);
    var b, st := trace[i].bridge, trace[i + 1].bridge.settlements[n];
    assert trace[i + 1].bridge.settlements == b.settlements + [st];
    assert DeadlineRejectionOk(b, st);
  }

  // ----- the deadline sweep -----

  /** The sweep of task `k` is still at work on `snapshot`, or it has returned and left
      none of it in the map as long as its outage lasts. */
  ghost predicate Tracks(s: System, k: nat, snapshot: seq<(string, string)>, generation: nat)
  {
    && k < s.nextTask
    && (k in s.tasks ==>
          && (s.tasks[k].SweepReady? || s.tasks[k].SweepWaiting? || s.tasks[k].SweepFinishing?)
          && s.tasks[k].sweep.snapshot == snapshot
          && s.tasks[k].sweep.generation == generation
          && s.tasks[k].sweep.deadlineExpired)
    && (k !in s.tasks && s.bridge.active.Some? && s.bridge.active.value.generation == generation ==>
          forall j :: 0 <= j < |snapshot| ==> !IsPending(s.bridge, snapshot[j].1))
    && generation <= |s.bridge.outages|
    && (forall j :: 0 <= j < |snapshot| ==> snapshot[j].1 in s.bridge.prompts)
  }

  lemma RunSweepTracks(s: System, k: nat, sw: Sweep)
    requires BridgeOk(s.bridge) && SweepOk(s.bridge, sw) && Cleared(s.bridge, sw, sw.next)
    requires sw.deadlineExpired && k < s.nextTask
    ensures Tracks(RunSweep(s, k, sw), k, sw.snapshot, sw.generation)
  {
    var i := NextEligible(s.bridge, sw, sw.next);
    SkippedAreGone(s.bridge, sw, i);
    EndSweepKeeps(s.bridge, sw);
  }

  /** Nobody but a task's own resumption touches it. */
  lemma ResumptionsLeaveOthers(s: System, e: Event, own: nat, k: nat)
    requires Inv(s) && Enabled(s, e) && Resumes(e, own) && k != own && k < s.nextTask
    ensures k in Step(s, e).tasks <==> k in s.tasks
    ensures k in s.tasks ==> Step(s, e).tasks[k] == s.tasks[k]
    ensures k < Step(s, e).nextTask
  {
    assert TaskOk(s.bridge, s.tasks[own]);
    if e.WaitReturns? {
      WaitLeavesOthers(s, own, e.result, k);
    } else if e.SendReturns? {
      SendLeavesOthers(s, own, e.sent, k);
    }
  }

  lemma SendLeavesOthers(s: System, own: nat, sent: SendResult, k: nat)
    requires Inv(s) && Enabled(s, SendReturns(own, sent)) && k != own && k < s.nextTask
    ensures var after := Step(s, SendReturns(own, sent));
      && (k in after.tasks <==> k in s.tasks)
      && (k in s.tasks ==> after.tasks[k] == s.tasks[k])
      && k < after.nextTask
  {
    assert TaskOk(s.bridge, s.tasks[own]);
  }

  lemma WaitLeavesOthers(s: System, own: nat, result: WaitResult, k: nat)
    requires Inv(s) && Enabled(s, WaitReturns(own, result)) && k != own && k < s.nextTask
    ensures var after := Step(s, WaitReturns(own, result));
      && (k in after.tasks <==> k in s.tasks)
      && (k in s.tasks ==> after.tasks[k] == s.tasks[k])
      && k < after.nextTask
  {
    hide BridgeOk, Cleared, AtDeadline, BeginFinish, KnownOutage;
    assert TaskOk(s.bridge, s.tasks[own]);
  }

  /** The sweep's own step: it stays the same sweep, or returns with its work done. */
  lemma OwnStepTracks(s: System, e: Event, k: nat, snapshot: seq<(string, string)>, generation: nat)
    requires Inv(s) && Enabled(s, e) && Tracks(s, k, snapshot, generation) && k in s.tasks && Resumes(e, k)
    ensures Tracks(Step(s, e), k, snapshot, generation)
  {
    var sw := s.tasks[k].sweep;
    assert TaskOk(s.bridge, s.tasks[k]);
    StepKeeps(s, e);
    var after := Step(s, e);
    if e.SweepResumes? {
      RunSweepTracks(s, k, sw);
    } else if e.WaitReturns? {
      WaitStaysSweep(s, k, e.result);
    } else {
      assert k in after.tasks && after.tasks[k] == NextEntry(sw, false);
    }
  }

  lemma WaitStaysSweep(s: System, k: nat, result: WaitResult)
    requires Inv(s) && Enabled(s, WaitReturns(k, result))
    ensures var after := Step(s, WaitReturns(k, result));
      && k in after.tasks && k < after.nextTask
      && (after.tasks[k].SweepReady? || after.tasks[k].SweepFinishing?)
      && after.tasks[k].sweep.snapshot == s.tasks[k].sweep.snapshot
      && after.tasks[k].sweep.generation == s.tasks[k].sweep.generation
      && after.tasks[k].sweep.deadlineExpired == s.tasks[k].sweep.deadlineExpired
  {
    hide BridgeOk, Cleared, AtDeadline, BeginFinish, KnownOutage;
    assert TaskOk(s.bridge, s.tasks[k]);
  }

  lemma StepTracks(s: System, e: Event, k: nat, snapshot: seq<(string, string)>, generation: nat)
    requires Inv(s) && Enabled(s, e) && Tracks(s, k, snapshot, generation)
    ensures Tracks(Step(s, e), k, snapshot, generation)
  {
    if k in s.tasks && Resumes(e, k) {
      OwnStepTracks(s, e, k, snapshot, generation);
    } else {
      StepKeeps(s, e);
      if Resumption(e) {
        ResumptionsLeaveOthers(s, e, e.task, k);
      } else {
        ArrivalsOnlySpawn(s, e, k);
      }
    }
  }

  lemma {:induction false} RunTracks(trace: seq<System>, events: seq<Event>, i: nat, j: nat, k: nat,
                                     snapshot: seq<(string, string)>, generation: nat)
    requires IsRun(trace, events) && i <= j < |trace| && Tracks(trace[i], k, snapshot, generation)
    ensures Tracks(trace[j], k, snapshot, generation)
  {
    if i < j {
      RunTracks(trace, events, i, j - 1, k, snapshot, generation);
      RunStep(trace, events, j - 1);
      StepTracks(trace[j - 1], events[j - 1], k, snapshot, generation);
    }
  }

  /** The grace deadline does its job: if the outage during which the timer fired still
      lasts when the sweep it started (task `trace[i].nextTask`) has returned, then no
      prompt that was in the map at the firing is in the map, whatever prompts, cancels,
      chat events, send results, timers and other sweeps ran in between. */
  lemma DeadlineSweepClearsTheMap(trace: seq<System>, events: seq<Event>, i: nat, j: nat)
    requires IsRun(trace, events) && i < j < |trace|
    requires events[i] == TimerFires && trace[i].bridge.active.Some?
    requires trace[i].nextTask !in trace[j].tasks
    requires trace[j].bridge.active == trace[i].bridge.active
    ensures forall sid :: sid in trace[i].bridge.pending.entries ==>
              trace[j].bridge.pending.Get(sid) != Some(trace[i].bridge.pending.entries[sid])
  {
    hide Inv, Enabled, Step, Tracks, Entries;
    RunStep(trace, events, i);
    var s, k := trace[i], trace[i].nextTask;
    FiringTracks(s);
    RunTracks(trace, events, i + 1, j, k, Entries(s.bridge), s.bridge.timer.value);
    RunKeepsInv(trace, events, j);
    InvMap(trace[j]);
    ReturnedSweepCleared(s.bridge, trace[j], k, s.bridge.timer.value);
  }

  lemma InvMap(s: System)
    requires Inv(s)
    ensures MapOk(s.bridge)
  {
  }

  lemma ReturnedSweepCleared(b: Bridge, s: System, k: nat, generation: nat)
    requires b.pending.Valid() && MapOk(s.bridge) && Tracks(s, k, Entries(b), generation) && k !in s.tasks
    requires s.bridge.active.Some? && s.bridge.active.value.generation == generation
    ensures forall sid :: sid in b.pending.entries ==> s.bridge.pending.Get(sid) != Some(b.pending.entries[sid])
  {
    forall sid | sid in b.pending.entries
      ensures s.bridge.pending.Get(sid) != Some(b.pending.entries[sid])
    {
      assert (sid, b.pending.entries[sid]) in Entries(b);
    }
  }

  lemma TimerGone(b: Bridge)
    requires BridgeOk(b)
    ensures BridgeOk(b.(timer := None))
    ensures forall r :: IsPending(b.(timer := None), r) <==> IsPending(b, r)
  {
    hide OutagesOk, SettlementsOk;
    var after := b.(timer := None);
    assert forall r :: IsPending(after, r) <==> IsPending(b, r);
    assert OutagesOk(after) && SettlementsOk(after) by {
      TimerIsApart(b, None);
    }
  }

  lemma TimerIsApart(b: Bridge, timer: Option<nat>)
    requires OutagesOk(b) && SettlementsOk(b)
    ensures OutagesOk(b.(timer := timer)) && SettlementsOk(b.(timer := timer))
  {
  }

  /** When the timer fires, its sweep takes every entry of the map. */
  lemma FiringTracks(s: System)
    requires Inv(s) && Enabled(s, TimerFires)
    ensures s.bridge.timer.Some? && s.bridge.pending.Valid()
    ensures s.bridge.active.Some? ==> s.bridge.timer.value == s.bridge.active.value.generation
    ensures Tracks(Step(s, TimerFires), s.nextTask, Entries(s.bridge), s.bridge.timer.value)
  {
    hide SettlementsOk, Tracks, RunSweep;
    var fired := With(s, s.bridge.(timer := None)).(nextTask := s.nextTask + 1);
    var sw := Sweep(s.bridge.timer.value, true, Entries(s.bridge), 0, false);
    assert fired.bridge.pending.Size() != 0;
    TimerGone(s.bridge);
    assert Entries(fired.bridge) == Entries(s.bridge);
    RunSweepTracks(fired, s.nextTask, sw);
  }
}
