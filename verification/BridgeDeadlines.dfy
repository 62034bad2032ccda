/** When a prompt in the map that carries an outage still has a deadline to come. */
module BridgeDeadlines {
  import opened Collections
  import opened GatewayBridge
  import opened BridgeInvariant
  import opened BridgeProtocol
  import opened BridgeTheorems
  import opened BridgeAccounting
  import opened BridgeProvenance
  import opened BridgeResponses

  /** The prompt is in the map and still carries the latest outage, which may be over. */
  predicate Marked(b: Bridge, run: string)
  {
    && IsPending(b, run)
    && b.prompts[run].disconnect.Some? && b.prompts[run].disconnect.value.generation == b.generation
  }

  /** While the gateway is down, these are all prompts in the map. */
  lemma AllAreMarked(b: Bridge, run: string)
    requires BridgeOk(b) && b.active.Some?
    ensures Marked(b, run) <==> IsPending(b, run)
  {
  }

  predicate IsSweep(t: Task)
  {
    t.SweepReady? || t.SweepWaiting? || t.SweepFinishing?
  }

  /** A sweep of the latest outage. */
  predicate IsCurrentSweep(b: Bridge, t: Task)
  {
    IsSweep(t) && t.sweep.generation == b.generation
  }

  predicate IsDeadlineSweep(b: Bridge, t: Task)
  {
    IsCurrentSweep(b, t) && t.sweep.deadlineExpired
  }

  ghost predicate Sweeping(s: System, k: nat)
  {
    k in s.tasks && IsDeadlineSweep(s.bridge, s.tasks[k])
  }

  /** The sweep is at a prompt of its snapshot, or has it still before it. */
  predicate WillAsk(t: Task, run: string)
  {
    && IsSweep(t)
    && exists j :: t.sweep.next <= j < |t.sweep.snapshot| && t.sweep.snapshot[j].1 == run
  }

  ghost predicate Asks(s: System, k: nat, run: string)
  {
    Sweeping(s, k) && WillAsk(s.tasks[k], run)
  }

  /** A prompt that carries the latest outage has a deadline to come: an armed timer, or a
      deadline sweep that has it before it. */
  ghost predicate HasDeadline(s: System, run: string)
  {
    Marked(s.bridge, run) ==> s.bridge.timer.Some? || exists k :: Asks(s, k, run)
  }

  /** The resumed deadline sweep has nothing more to ask about and returns, clearing the
      timer, while the prompt carries the outage and no other deadline sweep has it before
      it. */
  ghost predicate Strands(s: System, e: Event, run: string)
  {
    && e.SweepResumes? && Sweeping(s, e.task)
    && s.tasks[e.task].sweep.next <= |s.tasks[e.task].sweep.snapshot|
    && NextEligible(s.bridge, s.tasks[e.task].sweep, s.tasks[e.task].sweep.next) == |s.tasks[e.task].sweep.snapshot|
    && Marked(s.bridge, run)
    && (forall k :: k != e.task ==> !Asks(s, k, run))
  }

  /** The sweep will not clear the timer of a prompt behind its back: it is going to keep the
      timer, or has the prompt still before it. */
  predicate MindsPrompt(t: Task, run: string)
  {
    IsSweep(t) && (t.sweep.keepTimer || WillAsk(t, run))
  }

  /** So does every sweep a reconnect started. */
  ghost predicate ReconnectsMind(s: System, run: string)
  {
    Marked(s.bridge, run) ==>
      forall k :: k in s.tasks && IsCurrentSweep(s.bridge, s.tasks[k]) && !s.tasks[k].sweep.deadlineExpired ==>
        MindsPrompt(s.tasks[k], run)
  }

  lemma InvIsOk(s: System)
    requires Inv(s)
    ensures BridgeOk(s.bridge)
  {
  }

  // ----- a sweep starts -----

  lemma EntryOf(b: Bridge, run: string) returns (j: nat)
    requires BridgeOk(b) && IsPending(b, run)
    ensures j < |Entries(b)| && Entries(b)[j] == (b.prompts[run].sessionId, run)
  {
    var sid := b.prompts[run].sessionId;
    assert sid in b.pending.entries && (sid, b.pending.entries[sid]) in Entries(b);
    j :| 0 <= j < |Entries(b)| && Entries(b)[j] == (sid, run);
  }

  lemma PendingMeansEntries(b: Bridge, run: string)
    requires BridgeOk(b) && IsPending(b, run)
    ensures b.pending.entries != map[] && b.pending.Size() != 0
  {
    assert b.prompts[run].sessionId in b.pending.entries;
  }

  /** A sweep of the latest outage does not pass over a prompt that carries it. */
  lemma RunAsks(s: System, k: nat, sw: Sweep, run: string, j: nat)
    requires Marked(s.bridge, run) && sw.generation == s.bridge.generation
    requires sw.next <= j < |sw.snapshot| && sw.snapshot[j] == (s.bridge.prompts[run].sessionId, run)
    ensures var after := RunSweep(s, k, sw);
      && after.bridge == s.bridge && after.tasks.Keys == s.tasks.Keys + {k} && after.nextTask == s.nextTask
      && (forall i :: i in s.tasks && i != k ==> after.tasks[i] == s.tasks[i])
      && after.tasks[k].SweepWaiting? && after.tasks[k].sweep == sw.(next := after.tasks[k].sweep.next)
      && WillAsk(after.tasks[k], run)
  {
    assert Eligible(s.bridge, sw.generation, sw.snapshot[j]);
    var i := NextEligible(s.bridge, sw, sw.next);
    assert i <= j;
    assert sw.(next := i).snapshot[j].1 == run;
  }

  /** So a sweep that is started for it has every such prompt before it. */
  lemma StartAsks(s: System, deadlineExpired: bool, run: string)
    requires BridgeOk(s.bridge) && Marked(s.bridge, run)
    ensures var after := StartSweep(s, s.bridge.generation, deadlineExpired);
      && after.bridge == s.bridge && after.tasks.Keys == s.tasks.Keys + {s.nextTask}
      && (forall i :: i in s.tasks && i != s.nextTask ==> after.tasks[i] == s.tasks[i])
      && IsCurrentSweep(s.bridge, after.tasks[s.nextTask]) && WillAsk(after.tasks[s.nextTask], run)
      && after.tasks[s.nextTask].SweepWaiting? && after.tasks[s.nextTask].sweep.deadlineExpired == deadlineExpired
      && after.tasks[s.nextTask].sweep.snapshot == Entries(s.bridge)
  {
    hide BridgeOk, IsPending, Entries, RunSweep, WillAsk;
    PendingMeansEntries(s.bridge, run);
    InvEntries(s.bridge);
    var j := EntryOf(s.bridge, run);
    RunAsks(s.(nextTask := s.nextTask + 1), s.nextTask,
            Sweep(s.bridge.generation, deadlineExpired, Entries(s.bridge), 0, false), run, j);
  }

  lemma InvEntries(b: Bridge)
    requires BridgeOk(b)
    ensures b.pending.Valid()
  {
  }

  lemma TimerGoneMarks(b: Bridge, run: string)
    requires BridgeOk(b)
    ensures var later := b.(timer := None);
      BridgeOk(later) && (Marked(later, run) <==> Marked(b, run)) && Entries(later) == Entries(b)
  {
    TimerGone(b);
  }

  /** When the timer fires, its sweep has every prompt of the latest outage before it. */
  lemma FiringAsks(s: System, run: string)
    requires Inv(s) && Enabled(s, TimerFires) && Marked(s.bridge, run)
    ensures var after := Step(s, TimerFires);
      && Asks(after, s.nextTask, run) && after.bridge == s.bridge.(timer := None)
      && after.tasks[s.nextTask].SweepWaiting? && s.bridge.pending.Valid()
      && after.tasks[s.nextTask].sweep.snapshot == Entries(s.bridge)
      && after.tasks.Keys == s.tasks.Keys + {s.nextTask}
      && (forall k :: k in s.tasks && k != s.nextTask ==> after.tasks[k] == s.tasks[k])
  {
    hide MapOk, OutagesOk, PendingCarryOutage, SettlementsOk, TaskOk, StartSweep, WillAsk, Entries, Marked;
    TimerGoneMarks(s.bridge, run);
    InvEntries(s.bridge);
    StartAsks(With(s, s.bridge.(timer := None)), true, run);
  }

  // ----- one step -----

  /** A step other than a disconnect gives no prompt the mark of an outage it began before. */
  lemma MarkedBefore(s: System, e: Event, run: string)
    requires Inv(s) && Enabled(s, e) && run in s.bridge.prompts && !e.GatewayDown?
    requires Marked(Step(s, e).bridge, run)
    ensures Marked(s.bridge, run) && Step(s, e).bridge.generation == s.bridge.generation
  {
    hide Inv, Enabled, Step, Spares;
    StepNotesExactly(s, e, run);
    StepOutage(s, e);
    StepKeeps(s, e);
  }

  /** The answer to a sweep's question about a prompt takes it out of the map, or its mark
      away, or makes the sweep keep the timer. */
  lemma AskedLeaves(s: System, k: nat, result: WaitResult)
    requires Inv(s) && Enabled(s, WaitReturns(k, result)) && IsCurrentSweep(s.bridge, s.tasks[k])
    ensures var after, sw := Step(s, WaitReturns(k, result)), s.tasks[k].sweep;
      && sw.next < |sw.snapshot| && k in after.tasks
      && (|| after.tasks[k] == SweepFinishing(sw, sw.snapshot[sw.next].1)
          || (after.tasks[k] == NextEntry(sw, true) && !sw.deadlineExpired)
          || (after.tasks[k] == NextEntry(sw, false) && !Marked(after.bridge, sw.snapshot[sw.next].1)))
  {
    hide TaskOk, BridgeOk, BeginFinish, AtDeadline, Extends, KnownOutage;
    var sw, ctx := s.tasks[k].sweep, s.tasks[k].ctx;
    assert TaskOk(s.bridge, s.tasks[k]);
    Waits(s.bridge, sw, ctx);
    FinishKeeps(s, sw.snapshot[sw.next].1);
    DeadlineUnmarks(s.bridge, sw.snapshot[sw.next].1, ctx);
  }

  /** At the deadline a prompt is rejected or loses its mark. */
  lemma DeadlineUnmarks(b: Bridge, run: string, ctx: Context)
    requires BridgeOk(b) && run in b.prompts && KnownOutage(b, ctx)
    ensures ctx.generation == b.generation ==> !Marked(AtDeadline(b, run, ctx), run)
  {
    hide MapOk, PendingCarryOutage, TimerOk, SettlementsOk;
    if ShouldReject(b, run, ctx) {
      RemoveSessionKeeps(b, b.prompts[run].sessionId);
    }
  }

  /** A sweep goes on by one entry. */
  lemma NextAsks(t: Task, next: Task, run: string, keep: bool)
    requires WillAsk(t, run) && next == NextEntry(t.sweep, keep)
    requires t.sweep.next < |t.sweep.snapshot| && t.sweep.snapshot[t.sweep.next].1 != run
    ensures WillAsk(next, run)
  {
    var j :| t.sweep.next <= j < |t.sweep.snapshot| && t.sweep.snapshot[j].1 == run;
    assert next.sweep.snapshot[j].1 == run;
  }

  /** The sweep's own step keeps a prompt that keeps its mark before it, or makes it keep the
      timer. */
  lemma OwnStepMinds(s: System, e: Event, k: nat, run: string)
    requires Inv(s) && Enabled(s, e) && Resumes(e, k) && k in s.tasks && IsCurrentSweep(s.bridge, s.tasks[k])
    requires MindsPrompt(s.tasks[k], run) && Marked(s.bridge, run) && Marked(Step(s, e).bridge, run)
    ensures WillAsk(s.tasks[k], run) ==> k in Step(s, e).tasks
    ensures k in Step(s, e).tasks ==>
      var t := Step(s, e).tasks[k];
      && IsCurrentSweep(s.bridge, t) && t.sweep.deadlineExpired == s.tasks[k].sweep.deadlineExpired
      && MindsPrompt(t, run)
  {
    hide BridgeOk, Cleared, AfterWait, AfterSend, RunSweep, WillAsk, Marked;
    var t := s.tasks[k];
    if e.WaitReturns? {
      AskedLeaves(s, k, e.result);
      if Step(s, e).tasks[k].SweepReady? {
        if WillAsk(t, run) && !Step(s, e).tasks[k].sweep.keepTimer {
          NextAsks(t, Step(s, e).tasks[k], run, false);
        }
      } else {
        StillMinds(t, Step(s, e).tasks[k], run);
      }
    } else if e.SweepFinishReturns? {
      assert TaskOk(s.bridge, t);
      FinishedIsUnmarked(s, k, run);
      if WillAsk(t, run) {
        NextAsks(t, NextEntry(t.sweep, false), run, false);
      }
    } else {
      ResumedMinds(s, k, run);
    }
  }

  lemma StillMinds(t: Task, next: Task, run: string)
    requires next.SweepFinishing? && IsSweep(t) && next.sweep == t.sweep
    ensures WillAsk(next, run) <==> WillAsk(t, run)
  {
  }

  lemma FinishedIsUnmarked(s: System, k: nat, run: string)
    requires Inv(s) && k in s.tasks && s.tasks[k].SweepFinishing? && Marked(s.bridge, run)
    ensures var sw := s.tasks[k].sweep; sw.next < |sw.snapshot| && sw.snapshot[sw.next].1 != run
  {
    assert TaskOk(s.bridge, s.tasks[k]);
  }

  /** A resumed sweep keeps the prompt before it if it had it before it. */
  lemma ResumedMinds(s: System, k: nat, run: string)
    requires Inv(s) && Enabled(s, SweepResumes(k)) && IsCurrentSweep(s.bridge, s.tasks[k]) && Marked(s.bridge, run)
    ensures var after, t := Step(s, SweepResumes(k)), s.tasks[k];
      && (WillAsk(t, run) ==> k in after.tasks && WillAsk(after.tasks[k], run))
      && (k in after.tasks ==>
            after.tasks[k].SweepWaiting? && after.tasks[k].sweep == t.sweep.(next := after.tasks[k].sweep.next))
  {
    hide OutagesOk, SettlementsOk, Cleared, TimerOk, KnownOutage, PendingCarryOutage;
    var sw := s.tasks[k].sweep;
    assert TaskOk(s.bridge, s.tasks[k]);
    if WillAsk(s.tasks[k], run) {
      var j :| sw.next <= j < |sw.snapshot| && sw.snapshot[j].1 == run;
      RunAsks(s, k, sw, run, j);
    }
  }

  /** As long as there is no new outage, a deadline sweep keeps before it the prompts that keep
      their mark. */
  lemma AsksStays(s: System, e: Event, k: nat, run: string)
    requires Inv(s) && Enabled(s, e) && Asks(s, k, run) && !e.GatewayDown?
    requires Marked(s.bridge, run) && Marked(Step(s, e).bridge, run)
    ensures Asks(Step(s, e), k, run)
  {
    hide BridgeOk, Step, WillAsk, Marked, SweepOk, Cleared;
    StepOutage(s, e);
    if Resumes(e, k) {
      OwnStepMinds(s, e, k, run);
      StepKeeps(s, e);
      assert TaskOk(Step(s, e).bridge, Step(s, e).tasks[k]);
      DeadlinesKeepNoTimer(Step(s, e), k);
    } else if Resumption(e) {
      ResumptionsLeaveOthers(s, e, e.task, k);
    } else {
      ArrivalsOnlySpawn(s, e, k);
    }
  }

  lemma DeadlinesKeepNoTimer(s: System, k: nat)
    requires Inv(s) && Sweeping(s, k)
    ensures !s.tasks[k].sweep.keepTimer
  {
    assert TaskOk(s.bridge, s.tasks[k]);
  }

  // ----- reconnects -----

  lemma {:induction false} NoReconnectSweepsWhileDown(s: System, k: nat)
    requires Inv(s) && s.bridge.active.Some? && k in s.tasks && IsCurrentSweep(s.bridge, s.tasks[k])
    ensures s.tasks[k].sweep.deadlineExpired
  {
    assert TaskOk(s.bridge, s.tasks[k]);
  }

  /** No sweep but the one a reconnect starts is new to the reconnect sweeps. */
  lemma ReconnectSweepOrigin(s: System, e: Event, k: nat)
    requires Inv(s) && Enabled(s, e) && k in Step(s, e).tasks && !e.GatewayUp?
    requires IsCurrentSweep(Step(s, e).bridge, Step(s, e).tasks[k]) && !Step(s, e).tasks[k].sweep.deadlineExpired
    ensures k in s.tasks && (Resumes(e, k) || Step(s, e).tasks[k] == s.tasks[k])
  {
    hide BridgeOk, SweepOk, Cleared, Entries, NextEligible;
    if Resumption(e) {
      assert TaskOk(s.bridge, s.tasks[e.task]);
    }
  }

  lemma OwnSweepStays(s: System, e: Event, k: nat)
    requires Inv(s) && Enabled(s, e) && Resumes(e, k) && k in Step(s, e).tasks
    requires IsCurrentSweep(Step(s, e).bridge, Step(s, e).tasks[k])
    ensures k in s.tasks && IsCurrentSweep(s.bridge, s.tasks[k])
    ensures Step(s, e).tasks[k].sweep.deadlineExpired == s.tasks[k].sweep.deadlineExpired
  {
    hide BridgeOk, SweepOk, Cleared, NextEligible, AtDeadline, BeginFinish;
    assert TaskOk(s.bridge, s.tasks[k]);
    StepOutage(s, e);
  }

  lemma StepKeepsMinding(s: System, e: Event, run: string)
    requires Inv(s) && Enabled(s, e) && ReconnectsMind(s, run)
    ensures ReconnectsMind(Step(s, e), run)
  {
    hide Inv, Enabled, Step, MindsPrompt, Marked;
    StepKeeps(s, e);
    var after := Step(s, e);
    if Marked(after.bridge, run) && after.bridge.active.None? {
      StepOutage(s, e);
      MarkedIsThere(after.bridge, run);
      if run !in s.bridge.prompts {
        NewPromptsArrive(s, e, run);
        Unmarked(after.bridge, run);
      }
      MarkedBefore(s, e, run);
      forall k | k in after.tasks && IsCurrentSweep(after.bridge, after.tasks[k])
                 && !after.tasks[k].sweep.deadlineExpired
        ensures MindsPrompt(after.tasks[k], run)
      {
        if e.GatewayUp? {
          ReconnectMinds(s, k, run);
        } else {
          ReconnectSweepOrigin(s, e, k);
          SweepKeepsMinding(s, e, k, run);
        }
      }
    } else {
      forall k | k in after.tasks && IsCurrentSweep(after.bridge, after.tasks[k]) && after.bridge.active.Some?
        ensures after.tasks[k].sweep.deadlineExpired
      {
        NoReconnectSweepsWhileDown(after, k);
      }
    }
  }

  lemma Unmarked(b: Bridge, run: string)
    requires run in b.prompts && b.prompts[run].disconnect.None?
    ensures !Marked(b, run)
  {
  }

  lemma SweepKeepsMinding(s: System, e: Event, k: nat, run: string)
    requires Inv(s) && Enabled(s, e) && ReconnectsMind(s, run) && Marked(s.bridge, run)
    requires k in s.tasks && k in Step(s, e).tasks && (Resumes(e, k) || Step(s, e).tasks[k] == s.tasks[k])
    requires Marked(Step(s, e).bridge, run) && Step(s, e).bridge.generation == s.bridge.generation
    requires IsCurrentSweep(Step(s, e).bridge, Step(s, e).tasks[k]) && !Step(s, e).tasks[k].sweep.deadlineExpired
    ensures MindsPrompt(Step(s, e).tasks[k], run)
  {
    hide Inv, Enabled, Step, MindsPrompt, Marked;
    if Resumes(e, k) {
      OwnSweepStays(s, e, k);
      OwnStepMinds(s, e, k, run);
    }
  }

  /** A reconnect's sweep has every prompt before it that carries the outage. */
  lemma ReconnectMinds(s: System, k: nat, run: string)
    requires Inv(s) && ReconnectsMind(s, run) && Marked(s.bridge, run) && k in Step(s, GatewayUp).tasks
    requires IsCurrentSweep(Step(s, GatewayUp).bridge, Step(s, GatewayUp).tasks[k])
    requires !Step(s, GatewayUp).tasks[k].sweep.deadlineExpired
    ensures MindsPrompt(Step(s, GatewayUp).tasks[k], run)
  {
    hide TaskOk, WillAsk, StartSweep, SettlementsOk;
    if s.bridge.active.Some? {
      ReconnectAsks(s, run);
    }
  }

  /** The gateway comes up: a sweep starts that has before it every prompt in the map. */
  lemma ReconnectAsks(s: System, run: string)
    requires Inv(s) && s.bridge.active.Some? && IsPending(s.bridge, run)
    ensures var after := Step(s, GatewayUp);
      && after.bridge == s.bridge.(active := None)
      && after.tasks.Keys == s.tasks.Keys + {s.nextTask}
      && (forall k :: k in s.tasks && k != s.nextTask ==> after.tasks[k] == s.tasks[k])
      && IsCurrentSweep(after.bridge, after.tasks[s.nextTask]) && !after.tasks[s.nextTask].sweep.deadlineExpired
      && WillAsk(after.tasks[s.nextTask], run)
  {
    hide TaskOk, WillAsk, StartSweep, SettlementsOk, Entries;
    var up := With(s, s.bridge.(active := None));
    UpIsOk(s.bridge, run);
    StartAsks(up, false, run);
  }

  lemma UpIsOk(b: Bridge, run: string)
    requires BridgeOk(b) && b.active.Some? && IsPending(b, run)
    ensures BridgeOk(b.(active := None)) && Marked(b.(active := None), run)
    ensures b.active.value.generation == b.generation
  {
    hide CauseNamesRun;
    var later := b.(active := None);
    assert forall r :: IsPending(later, r) <==> IsPending(b, r);
  }

  // ----- what becomes of the timer -----

  /** Resumed work drops the timer only if the map is empty, or it is a sweep of the latest
      outage that returns and need not keep it. */
  lemma ResumptionKeepsTimer(s: System, e: Event)
    requires Inv(s) && Enabled(s, e) && Resumption(e)
    ensures e.SweepResumes? || KeepsTimer(s.bridge, Step(s, e).bridge)
    ensures e.SweepResumes? ==>
              var sw := s.tasks[e.task].sweep;
              && sw.next <= |sw.snapshot|
              && var ends := NextEligible(s.bridge, sw, sw.next) == |sw.snapshot|;
              && var drops := ends && IsCurrentSweep(s.bridge, s.tasks[e.task]) && !sw.keepTimer;
              && Step(s, e).bridge == s.bridge.(timer := if drops then None else s.bridge.timer)
              && (e.task in Step(s, e).tasks <==> !ends)
              && (!ends ==> Step(s, e).tasks[e.task].sweep == sw.(next := NextEligible(s.bridge, sw, sw.next)))
  {
    assert TaskOk(s.bridge, s.tasks[e.task]);
  }

  /** No sweep but the one the timer starts takes on a prompt. */
  lemma AskedBefore(s: System, e: Event, k: nat, run: string)
    requires Inv(s) && Enabled(s, e) && e.SweepResumes? && k != e.task
    requires Asks(Step(s, e), k, run)
    ensures Asks(s, k, run)
  {
    hide BridgeOk, Cleared, SweepOk;
    assert TaskOk(s.bridge, s.tasks[e.task]);
  }

  lemma SameMarks(b: Bridge, later: Bridge, run: string)
    requires later == b.(timer := later.timer)
    ensures Marked(later, run) <==> Marked(b, run)
  {
  }

  /** A returning reconnect sweep that drops the timer has left no prompt marked. */
  lemma ReconnectsDropNothing(s: System, e: Event, run: string)
    requires Inv(s) && Enabled(s, e) && e.SweepResumes? && ReconnectsMind(s, run) && Marked(s.bridge, run)
    requires IsCurrentSweep(s.bridge, s.tasks[e.task]) && !s.tasks[e.task].sweep.deadlineExpired
    ensures e.task in Step(s, e).tasks || s.tasks[e.task].sweep.keepTimer
  {
    hide Inv, Step, WillAsk, Marked;
    ResumedMinds(s, e.task, run);
  }

  lemma ResumedSweepKeepsDeadline(s: System, e: Event, run: string)
    requires Inv(s) && HasDeadline(s, run) && ReconnectsMind(s, run) && Enabled(s, e) && e.SweepResumes?
    ensures HasDeadline(Step(s, e), run) <==> !Strands(s, e, run)
  {
    hide Inv, Step, WillAsk, Marked, ReconnectsMind;
    ResumptionKeepsTimer(s, e);
    var after := Step(s, e);
    SameMarks(s.bridge, after.bridge, run);
    if Marked(s.bridge, run) {
      var sw := s.tasks[e.task].sweep;
      var ends := NextEligible(s.bridge, sw, sw.next) == |sw.snapshot|;
      if Strands(s, e, run) {
        DeadlinesKeepNoTimer(s, e.task);
        forall k
          ensures !Asks(after, k, run)
        {
          if Asks(after, k, run) && k != e.task {
            AskedBefore(s, e, k, run);
          }
        }
      } else {
        if IsCurrentSweep(s.bridge, s.tasks[e.task]) && !sw.deadlineExpired {
          ReconnectsDropNothing(s, e, run);
        }
        if after.bridge.timer.None? {
          var k :| Asks(s, k, run) && (ends && Sweeping(s, e.task) ==> k != e.task);
          AsksStays(s, e, k, run);
        }
      }
    }
  }

  lemma ResumptionKeepsDeadline(s: System, e: Event, run: string)
    requires Inv(s) && HasDeadline(s, run) && ReconnectsMind(s, run) && Enabled(s, e) && Resumption(e)
    ensures HasDeadline(Step(s, e), run) <==> !Strands(s, e, run)
  {
    hide Inv, Enabled, Step, Asks, BridgeOk, ReconnectsMind, Marked;
    if e.SweepResumes? {
      ResumedSweepKeepsDeadline(s, e, run);
    } else {
      StepKeeps(s, e);
      ResumptionKeepsTimer(s, e);
      ResumptionMakesNoPrompt(s, e);
      var after := Step(s, e);
      if Marked(after.bridge, run) {
        MarkedIsThere(after.bridge, run);
        MarkedBefore(s, e, run);
        InvIsOk(after);
        PendingMeansEntries(after.bridge, run);
        if after.bridge.timer.None? {
          var k :| Asks(s, k, run);
          AsksStays(s, e, k, run);
        }
      }
    }
  }

  lemma MarkedIsThere(b: Bridge, run: string)
    requires Marked(b, run)
    ensures run in b.prompts && IsPending(b, run)
  {
  }

  /** News of a prompt or an outage leaves the timer armed while there is an outage. */
  lemma NewsArmsTimer(s: System, e: Event)
    requires Inv(s) && (e.PromptArrives? || e.GatewayDown?) && Enabled(s, e)
    ensures var b := Step(s, e).bridge; b.active.Some? && b.pending.entries != map[] ==> b.timer.Some?
    ensures s.bridge.timer.Some? ==> Step(s, e).bridge.timer.Some?
    ensures e.GatewayDown? ==> Step(s, e).bridge.active.Some?
  {
    hide TaskOk, SweepOk, Cleared;
    StepKeeps(s, e);
  }

  /** Other arrivals leave it alone, unless the map is empty; only the timer itself stops. */
  lemma ArrivalKeepsTimer(s: System, e: Event)
    requires Inv(s) && Enabled(s, e) && (e.ChatArrives? || e.CancelArrives?)
    ensures KeepsTimer(s.bridge, Step(s, e).bridge)
  {
    hide BridgeOk, TaskOk, FindPending;
  }

  lemma ReconnectKeepsTimer(s: System, run: string)
    requires Inv(s) && Marked(Step(s, GatewayUp).bridge, run)
    ensures Step(s, GatewayUp).bridge.timer == s.bridge.timer
  {
    hide TaskOk, Step, Marked;
    StepKeeps(s, GatewayUp);
    StepOutage(s, GatewayUp);
    MarkedIsThere(Step(s, GatewayUp).bridge, run);
    if s.bridge.active.Some? {
      ReconnectMakesNoPrompt(s);
      ReconnectAsks(s, run);
    } else {
      assert Step(s, GatewayUp) == s by { NotDown(s); }
    }
  }

  lemma ReconnectMakesNoPrompt(s: System)
    requires Inv(s)
    ensures Step(s, GatewayUp).bridge.prompts == s.bridge.prompts
  {
    hide TaskOk, BridgeOk;
  }

  lemma NotDown(s: System)
    requires Inv(s) && s.bridge.active.None?
    ensures Step(s, GatewayUp) == s
  {
  }

  lemma ArrivalKeepsDeadline(s: System, e: Event, run: string)
    requires Inv(s) && HasDeadline(s, run) && Enabled(s, e) && !Resumption(e)
    ensures HasDeadline(Step(s, e), run)
  {
    hide Inv, Enabled, Step, BridgeOk, Asks, Marked;
    StepKeeps(s, e);
    var after := Step(s, e);
    if Marked(after.bridge, run) {
      InvIsOk(after);
      MarkedIsThere(after.bridge, run);
      PendingMeansEntries(after.bridge, run);
      if run !in s.bridge.prompts {
        NewPromptsArrive(s, e, run);
        StepOutage(s, e);
        if s.bridge.active.None? {
          Unmarked(after.bridge, run);
        } else {
          NewsArmsTimer(s, e);
        }
      } else if e.GatewayDown? {
        NewsArmsTimer(s, e);
      } else {
        MarkedBefore(s, e, run);
        if e.TimerFires? {
          FiringAsks(s, run);
        } else if s.bridge.timer.None? {
          var k :| Asks(s, k, run);
          AsksStays(s, e, k, run);
        } else if e.PromptArrives? {
          NewsArmsTimer(s, e);
        } else if e.GatewayUp? {
          ReconnectKeepsTimer(s, run);
        } else {
          ArrivalKeepsTimer(s, e);
        }
      }
    }
  }

  // ----- over whole runs -----

  lemma {:induction false} ReconnectSweepsMind(trace: seq<System>, events: seq<Event>, i: nat, run: string)
    requires IsRun(trace, events) && i < |trace|
    ensures ReconnectsMind(trace[i], run)
  {
    hide Inv, Enabled, Step;
    if i > 0 {
      ReconnectSweepsMind(trace, events, i - 1, run);
      RunStep(trace, events, i - 1);
      StepKeepsMinding(trace[i - 1], events[i - 1], run);
    }
  }

  /** Exactly one thing leaves a prompt that carries the latest outage without a deadline, in
      the outage or after it: a deadline sweep that returns, clearing the timer, while no other
      deadline sweep has the prompt before it. */
  lemma OnlyAReturningSweepStrandsPrompts(trace: seq<System>, events: seq<Event>, i: nat, run: string)
    requires IsRun(trace, events) && i < |events| && HasDeadline(trace[i], run)
    ensures HasDeadline(trace[i + 1], run) <==> !Strands(trace[i], events[i], run)
  {
    hide Inv, Enabled, Step, HasDeadline, ReconnectsMind;
    RunStep(trace, events, i);
    ReconnectSweepsMind(trace, events, i, run);
    if Resumption(events[i]) {
      ResumptionKeepsDeadline(trace[i], events[i], run);
    } else {
      ArrivalKeepsDeadline(trace[i], events[i], run);
    }
  }

  /** In every state of every run, every prompt in the map that carries the latest outage has a
      deadline to come, unless a returning sweep has stranded it. */
  lemma {:induction false} PromptsHaveDeadlines(trace: seq<System>, events: seq<Event>, i: nat, run: string)
    requires IsRun(trace, events) && i < |trace|
    ensures HasDeadline(trace[i], run) || exists j :: 0 <= j < i && Strands(trace[j], events[j], run)
  {
    hide Strands;
    if i > 0 {
      PromptsHaveDeadlines(trace, events, i - 1, run);
      if HasDeadline(trace[i - 1], run) {
        OnlyAReturningSweepStrandsPrompts(trace, events, i - 1, run);
      }
    }
  }

  // ----- examples of it -----

  /** Prompt "a" is started and the gateway goes down. */
  lemma DownWithOnePrompt() returns (s: System)
    ensures Reachable(s) && Inv(s)
    ensures s.bridge.active.Some? && s.bridge.timer.Some? && s.bridge.generation == 1 && s.bridge.prompts.Keys == {"a"}
    ensures s.bridge.pending.entries == map["s1" := "a"]
    ensures IsPending(s.bridge, "a") && !s.bridge.prompts["a"].sendAccepted && s.bridge.prompts["a"].sessionId == "s1"
    ensures forall k :: k in s.tasks ==> s.tasks[k].Sending?
  {
    hide TaskOk, Reachable, BridgeOk;
    StartIsReachable();
    var arrive := PromptArrives("s1", "k1", "a", false);
    ReachableStep(START, arrive);
    s := Step(START, arrive);
    assert s.bridge.pending.entries == map["s1" := "a"] && s.tasks == map[0 := Sending("a", false)];
    assert s.bridge.active.None? && s.bridge.generation == 0;
    var before := s;
    ReachableStep(before, GatewayDown("lost"));
    assert before.bridge.pending.Size() != 0;
    s := Step(before, GatewayDown("lost"));
  }

  /** Task `k` is a sweep that waits for the answer about "a", its only entry. */
  ghost predicate AsksAboutA(s: System, k: nat)
  {
    && Sweeping(s, k) && s.tasks[k].SweepWaiting? && s.bridge.active.Some?
    && |s.tasks[k].sweep.snapshot| == 1 && s.tasks[k].sweep.next == 0 && s.tasks[k].sweep.snapshot[0].1 == "a"
    && IsPending(s.bridge, "a") && !s.bridge.prompts["a"].sendAccepted
  }

  /** Every task but these is a send. */
  ghost predicate OthersSend(s: System, sweeps: set<nat>)
  {
    forall j :: j in s.tasks && j !in sweeps ==> s.tasks[j].Sending?
  }

  lemma TimerAsksAboutA() returns (s: System, k: nat)
    ensures Reachable(s) && Inv(s) && AsksAboutA(s, k) && OthersSend(s, {k})
    ensures s.bridge.timer.None? && s.bridge.prompts.Keys == {"a"} && s.bridge.pending.entries == map["s1" := "a"]
    ensures s.bridge.prompts["a"].sessionId == "s1"
  {
    hide TaskOk, Reachable;
    var down := DownWithOnePrompt();
    k := down.nextTask;
    ReachableStep(down, TimerFires);
    InvIsOk(down);
    AllAreMarked(down.bridge, "a");
    FiringAsks(down, "a");
    FiringTracks(down);
    s := Step(down, TimerFires);
    OneEntry(down.bridge);
    assert s.bridge == down.bridge.(timer := None);
  }

  lemma OneEntry(b: Bridge)
    requires b.pending.Valid() && b.pending.entries == map["s1" := "a"]
    ensures |Entries(b)| == 1 && Entries(b)[0] == ("s1", "a")
  {
    SizeIsCardinality(b.pending);
    assert b.pending.order[0] in b.pending.entries;
  }

  /** A prompt arrives on a fresh session while the sweeps are at work, and arms the timer. */
  lemma PromptDuringSweeps(before: System, sweeps: set<nat>, k: nat, sessionId: string, run: string) returns (s: System)
    requires Reachable(before) && AsksAboutA(before, k) && k in sweeps && OthersSend(before, sweeps)
    requires run !in before.bridge.prompts && sessionId !in before.bridge.pending.entries
    ensures Reachable(s) && Inv(before) && Inv(s) && AsksAboutA(s, k) && OthersSend(s, sweeps)
    ensures s.bridge.timer.Some? && IsPending(s.bridge, run)
    ensures s.bridge.prompts.Keys == before.bridge.prompts.Keys + {run}
    ensures s.bridge.pending.entries == before.bridge.pending.entries[sessionId := run]
    ensures forall j :: j in before.tasks ==> j in s.tasks && s.tasks[j] == before.tasks[j]
    ensures s.bridge.active == before.bridge.active && s.bridge.generation == before.bridge.generation
  {
    hide TaskOk, Reachable, BridgeOk;
    var arrive := PromptArrives(sessionId, "k", run, false);
    ReachableStep(before, arrive);
    s := Step(before, arrive);
    StartPromptKeeps(before.bridge, sessionId, "k", run);
    assert before.bridge.pending.Get(before.bridge.prompts["a"].sessionId) == Some("a");
  }

  /** The answer leaves "a" rejected and the sweep at its end; a prompt of another session
      stays in the map. */
  lemma AnswerAboutA(asked: System, k: nat, sweeps: set<nat>, run: string)
    requires Inv(asked) && AsksAboutA(asked, k) && k in sweeps && OthersSend(asked, sweeps)
    requires IsPending(asked.bridge, run) && run != "a"
    ensures Enabled(asked, WaitReturns(k, RunUnfinished))
    ensures var s := Step(asked, WaitReturns(k, RunUnfinished));
      && Sweeping(s, k) && s.tasks[k].SweepReady? && s.tasks[k].sweep.next == |s.tasks[k].sweep.snapshot| == 1
      && OthersSend(s, sweeps)
      && (forall j :: j in asked.tasks && j != k ==> j in s.tasks && s.tasks[j] == asked.tasks[j])
      && IsPending(s.bridge, run) && s.bridge.timer == asked.bridge.timer
      && s.bridge.active == asked.bridge.active && s.bridge.generation == asked.bridge.generation
  {
    hide BridgeOk, TaskOk, AtDeadline, Extends, KnownOutage;
    var sw, ctx := asked.tasks[k].sweep, asked.tasks[k].ctx;
    Waits(asked.bridge, sw, ctx);
    AtDeadlineKeeps(asked.bridge, "a", ctx);
    var s := Step(asked, WaitReturns(k, RunUnfinished));
    assert s.tasks == asked.tasks[k := NextEntry(sw, false)] && s.bridge == AtDeadline(asked.bridge, "a", ctx);
    PendingMeansEntries(s.bridge, run);
  }

  lemma RunTo(s: System) returns (trace: seq<System>, events: seq<Event>)
    requires Reachable(s)
    ensures IsRun(trace, events) && trace[|events|] == s
  {
    trace, events :| IsRun(trace, events) && trace[|trace| - 1] == s;
  }

  /** Sweep `k` is at its end and returns; no other sweep has the prompt before it. */
  lemma ReturnStrands(s: System, k: nat, run: string)
    requires Reachable(s) && Inv(s) && Sweeping(s, k) && s.tasks[k].SweepReady?
    requires s.tasks[k].sweep.next == |s.tasks[k].sweep.snapshot| && IsPending(s.bridge, run) && s.bridge.timer.Some?
    requires s.bridge.active.Some?
    requires forall j :: j != k ==> !Asks(s, j, run)
    ensures var e := SweepResumes(k);
      && Enabled(s, e) && HasDeadline(s, run) && Strands(s, e, run)
      && Reachable(Step(s, e)) && !HasDeadline(Step(s, e), run)
  {
    hide Step, Reachable, Inv, BridgeOk, ReconnectsMind;
    ReachableStep(s, SweepResumes(k));
    InvIsOk(s);
    AllAreMarked(s.bridge, run);
    var trace, events := RunTo(s);
    ReconnectSweepsMind(trace, events, |events|, run);
    ResumptionKeepsDeadline(s, SweepResumes(k), run);
  }

  /** It does happen: "b" is started while the deadline sweep waits for the answer about
      "a"; the sweep rejects "a", returns, and clears the timer "b" had armed. */
  lemma StrandedPromptExample() returns (s: System, e: Event)
    ensures Reachable(s) && Enabled(s, e) && Inv(s) && HasDeadline(s, "b") && Strands(s, e, "b")
    ensures Reachable(Step(s, e)) && !HasDeadline(Step(s, e), "b") && IsPending(s.bridge, "b")
  {
    hide Step, Reachable, Inv, Strands, HasDeadline;
    var waiting, k := TimerAsksAboutA();
    var asked := PromptDuringSweeps(waiting, {k}, k, "s2", "b");
    var reply := WaitReturns(k, RunUnfinished);
    AnswerAboutA(asked, k, {k}, "b");
    ReachableStep(asked, reply);
    s, e := Step(asked, reply), SweepResumes(k);
    ReturnStrands(s, k, "b");
  }

  /** A second sweep, task `m`, is started while the first waits for the answer about "a". */
  lemma SecondSweep() returns (s: System, k: nat, m: nat)
    ensures Reachable(s) && Inv(s) && AsksAboutA(s, k) && OthersSend(s, {k, m}) && k != m && Sweeping(s, m)
    ensures s.bridge.prompts.Keys == {"a", "b"} && s.bridge.pending.entries.Keys == {"s1", "s2"}
    ensures forall run :: WillAsk(s.tasks[m], run) ==> run in {"a", "b"}
  {
    hide TaskOk, Reachable, BridgeOk, Step, Entries, Eligible, StartPrompt, Marked;
    var waiting;
    waiting, k := TimerAsksAboutA();
    var before := PromptDuringSweeps(waiting, {k}, k, "s2", "b");
    m := before.nextTask;
    ReachableStep(before, TimerFires);
    InvIsOk(before);
    AllAreMarked(before.bridge, "b");
    FiringAsks(before, "b");
    s := Step(before, TimerFires);
    assert forall j :: 0 <= j < |Entries(s.bridge)| ==> Entries(s.bridge)[j].1 in {"a", "b"};
  }

  /** Nor does another deadline sweep at work help, if its snapshot is older than the prompt:
      "c" is started behind two sweeps, and loses its timer to the first of them. */
  lemma StrandedBesideASweepExample() returns (s: System, e: Event, m: nat)
    ensures Reachable(s) && Enabled(s, e) && Inv(s) && HasDeadline(s, "c") && Strands(s, e, "c")
    ensures Reachable(Step(s, e)) && !HasDeadline(Step(s, e), "c") && IsPending(s.bridge, "c")
    ensures e != SweepResumes(m) && Sweeping(s, m)
  {
    hide Step, Reachable, Inv, Strands, HasDeadline, WillAsk;
    var two, k;
    two, k, m := SecondSweep();
    var asked := PromptDuringSweeps(two, {k, m}, k, "s3", "c");
    var reply := WaitReturns(k, RunUnfinished);
    AnswerAboutA(asked, k, {k, m}, "c");
    ReachableStep(asked, reply);
    s, e := Step(asked, reply), SweepResumes(k);
    ReturnStrands(s, k, "c");
  }
}
