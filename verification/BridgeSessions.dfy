/** The bridge together with its session table: the runs the table calls active, and the
    prompts the map of pending prompts holds (src/acp/translator.ts over src/acp/session.ts). */
module BridgeSessions {
  import opened Collections
  import opened GatewayBridge
  import opened BridgeInvariant
  import opened BridgeProtocol
  import opened BridgeTheorems
  import opened BridgeAccounting
  import Sessions

  datatype Agent = Agent(system: System, store: Sessions.Store)

  /** An event of the bridge, with the clock and the controller a prompt makes; a prompt that is
      refused for its size; a session that is created or loaded; a request that only looks a
      session up. */
  datatype Input =
    | Bridging(event: Event, controller: nat, now: int)
    | Refusing(sessionId: string, now: int)
    | Creating(sessionId: string, sessionKey: string, cwd: string, now: int)
    | Getting(sessionId: string, now: int)

  function SessionOf(s: System, run: string): string
    requires run in s.bridge.prompts
  {
    s.bridge.prompts[run].sessionId
  }

  /** The session whose active run the step clears, if it finishes, fails or rejects a prompt. */
  function ClearedBy(s: System, e: Event): Option<string>
    requires Inv(s) && Enabled(s, e)
  {
    match e
    case SendReturns(k, sent) =>
      var t := s.tasks[k];
      assert TaskOk(s.bridge, t);
      if sent == SendAccepted || (sent == ProvenanceRejected && t.provenance)
         || (sent == GatewayClosed && IsPending(s.bridge, t.run)) then None
      else Some(SessionOf(s, t.run))
    case ChatArrives(sessionKey, named, state, hasMessage) =>
      (match FindPending(s.bridge, sessionKey, named)
       case None => None
       case Some(run) => if state.Delta? || (state.Final? && hasMessage) then None else Some(SessionOf(s, run)))
    case StreamReturns(k, delivered) =>
      assert TaskOk(s.bridge, s.tasks[k]);
      if delivered then Some(SessionOf(s, s.tasks[k].run)) else None
    case WaitReturns(k, result) =>
      var sw, ctx := s.tasks[k].sweep, s.tasks[k].ctx;
      assert TaskOk(s.bridge, s.tasks[k]);
      var run := sw.snapshot[sw.next].1;
      if !IsPending(s.bridge, run) then None
      else if result == RunOk || result == RunError || (sw.deadlineExpired && ShouldReject(s.bridge, run, ctx))
      then Some(SessionOf(s, run)) else None
    case _ => None
  }

  /** The session whose entry the step deletes: the same, and that of an answered abort. */
  function RemovedBy(s: System, e: Event): Option<string>
    requires Inv(s) && Enabled(s, e)
  {
    if e.AbortReturns? then
      assert TaskOk(s.bridge, s.tasks[e.task]);
      Some(SessionOf(s, s.tasks[e.task].run))
    else ClearedBy(s, e)
  }

  /** What the step does to the session table. */
  function StoreStep(a: Agent, e: Event, controller: nat, now: int): Sessions.Store
    requires Inv(a.system) && Enabled(a.system, e)
  {
    match e
    case PromptArrives(sessionId, _, run, _) =>
      var got := Sessions.TouchIfThere(a.store, sessionId, now);
      Sessions.SetActive(Sessions.CancelActive(got, sessionId, now), sessionId, run, controller, now)
    case CancelArrives(sessionId) =>
      Sessions.CancelActive(Sessions.TouchIfThere(a.store, sessionId, now), sessionId, now)
    case _ =>
      match ClearedBy(a.system, e)
      case None => a.store
      case Some(sessionId) => Sessions.ClearActive(a.store, sessionId, now)
  }

  /** A prompt or a cancel is for a session of the table; a prompt takes its key from there. */
  predicate Accepts(a: Agent, input: Input)
  {
    input.Bridging? ==>
      && Enabled(a.system, input.event)
      && match input.event
         case PromptArrives(sessionId, sessionKey, run, _) =>
           sessionId in a.store.sessions.entries && a.store.sessions.entries[sessionId].sessionKey == sessionKey
           && run != ""
         case CancelArrives(sessionId) => sessionId in a.store.sessions.entries
         case _ => true
  }

  function Advance(a: Agent, input: Input): Agent
    requires AgentInv(a) && Accepts(a, input)
  {
    match input
    case Bridging(e, controller, now) => Agent(Step(a.system, e), StoreStep(a, e, controller, now))
    case Refusing(sessionId, now) =>
      a.(store := Sessions.CancelActive(Sessions.TouchIfThere(a.store, sessionId, now), sessionId, now))
    case Creating(sessionId, sessionKey, cwd, now) =>
      a.(store := Sessions.Create(a.store, sessionId, sessionKey, cwd, now).0)
    case Getting(sessionId, now) => a.(store := Sessions.TouchIfThere(a.store, sessionId, now))
  }

  // ----- what holds of table and map -----

  /** The run that is active in the session, by the table. */
  function ActiveRun(st: Sessions.Store, sessionId: string): Option<string>
  {
    if sessionId in st.sessions.entries then st.sessions.entries[sessionId].activeRunId else None
  }

  /** An active run is a prompt's, of that session. */
  ghost predicate RunsKnown(s: System, st: Sessions.Store)
  {
    forall sid :: ActiveRun(st, sid).Some? ==>
      ActiveRun(st, sid).value in s.bridge.prompts && SessionOf(s, ActiveRun(st, sid).value) == sid
  }

  ghost predicate BeingCancelled(s: System, run: string)
  {
    exists k :: k in s.tasks && s.tasks[k] == Cancelling(run)
  }

  /** A prompt that is being cancelled is no session's active run. */
  ghost predicate CancelledIsInactive(s: System, st: Sessions.Store)
  {
    forall sid :: ActiveRun(st, sid).Some? ==> !BeingCancelled(s, ActiveRun(st, sid).value)
  }

  ghost predicate AgentInv(a: Agent)
  {
    && Inv(a.system) && Sessions.Inv(a.store)
    && RunsKnown(a.system, a.store) && CancelledIsInactive(a.system, a.store)
  }

  /** A prompt in the map is its session's active run, or is being cancelled. */
  ghost predicate Covered(a: Agent)
  {
    forall sid :: sid in a.system.bridge.pending.entries ==>
      || ActiveRun(a.store, sid) == Some(a.system.bridge.pending.entries[sid])
      || BeingCancelled(a.system, a.system.bridge.pending.entries[sid])
  }

  /** A prompt is refused for its size, on a session whose entry is not being cancelled. */
  ghost predicate Uncovers(a: Agent, input: Input)
  {
    && input.Refusing? && input.sessionId in a.system.bridge.pending.entries
    && !BeingCancelled(a.system, a.system.bridge.pending.entries[input.sessionId])
  }

  /** An active run is its session's entry in the map. */
  ghost predicate Linked(a: Agent)
  {
    forall sid :: ActiveRun(a.store, sid).Some? ==> a.system.bridge.pending.Get(sid) == ActiveRun(a.store, sid)
  }

  /** The answer to an abort arrives while the session has an active run. */
  ghost predicate Unlinks(a: Agent, input: Input)
    requires Inv(a.system)
  {
    && input.Bridging? && input.event.AbortReturns? && Enabled(a.system, input.event)
    && ActiveRun(a.store, RemovedBy(a.system, input.event).value).Some?
  }

  // ----- what the calls do to the active runs -----

  lemma TouchedStore(st: Sessions.Store, sessionId: string, now: int)
    requires Sessions.Inv(st)
    ensures var after := Sessions.TouchIfThere(st, sessionId, now);
      && Sessions.Inv(after) && after.sessions.entries.Keys == st.sessions.entries.Keys && after.runIds == st.runIds
      && (forall sid :: ActiveRun(after, sid) == ActiveRun(st, sid))
  {
    Sessions.TouchKeeps(st, sessionId, now);
  }

  lemma CancelledStore(st: Sessions.Store, sessionId: string, now: int)
    requires Sessions.Inv(st)
    ensures var after := Sessions.CancelActive(st, sessionId, now);
      && Sessions.Inv(after)
      && (forall sid :: ActiveRun(after, sid) == if sid == sessionId then None else ActiveRun(st, sid))
  {
    Sessions.CancellingKeeps(st, sessionId, now);
  }

  lemma ClearedStore(st: Sessions.Store, sessionId: string, now: int)
    requires Sessions.Inv(st)
    ensures var after := Sessions.ClearActive(st, sessionId, now);
      && Sessions.Inv(after)
      && (forall sid :: ActiveRun(after, sid) == if sid == sessionId then None else ActiveRun(st, sid))
  {
    if sessionId in st.sessions.entries {
      Sessions.ClearingKeeps(st, sessionId, now);
    }
    hide Sessions.Inv;
  }

  lemma PromptedStore(st: Sessions.Store, sessionId: string, run: string, controller: nat, now: int)
    requires Sessions.Inv(st) && sessionId in st.sessions.entries && run != "" && run !in st.runIds
    ensures var after := Sessions.SetActive(Sessions.CancelActive(st, sessionId, now), sessionId, run, controller, now);
      && Sessions.Inv(after)
      && (forall sid :: ActiveRun(after, sid) == if sid == sessionId then Some(run) else ActiveRun(st, sid))
  {
    Sessions.PromptIsDisciplined(st, sessionId, run, controller, now);
    hide Sessions.Inv;
  }

  /** Creating a session starts no run, and drops no session that has one. */
  lemma CreatedSession(st: Sessions.Store, sessionId: string, sessionKey: string, cwd: string, now: int, sid: string)
    requires Sessions.Inv(st)
    ensures ActiveRun(Sessions.Create(st, sessionId, sessionKey, cwd, now).0, sid) == ActiveRun(st, sid)
  {
    if sid != sessionId {
      OtherSession(st, sessionId, sessionKey, cwd, now, sid);
    } else {
      hide Sessions.Reap, Sessions.Evict;
      if sessionId !in st.sessions.entries {
        NotThere(st, sessionId, now);
      }
    }
  }

  lemma OtherSession(st: Sessions.Store, sessionId: string, sessionKey: string, cwd: string, now: int, sid: string)
    requires Sessions.Inv(st) && sid != sessionId
    ensures ActiveRun(Sessions.Create(st, sessionId, sessionKey, cwd, now).0, sid) == ActiveRun(st, sid)
  {
    hide Sessions.Create;
    if sid in st.sessions.entries {
      Sessions.CreationDropsOnlyIdle(st, sessionId, sessionKey, cwd, now, sid);
    } else {
      NothingElseCreated(st, sessionId, sessionKey, cwd, now, sid);
    }
  }

  lemma NothingElseCreated(st: Sessions.Store, sessionId: string, sessionKey: string, cwd: string, now: int,
                           sid: string)
    requires Sessions.Inv(st) && sid != sessionId && sid !in st.sessions.entries
    ensures sid !in Sessions.Create(st, sessionId, sessionKey, cwd, now).0.sessions.entries
  {
    hide Sessions.Reap, Sessions.Oldest;
    NotThere(st, sid, now);
  }

  lemma NotThere(st: Sessions.Store, sid: string, now: int)
    requires Sessions.Inv(st) && sid !in st.sessions.entries
    ensures Sessions.Reap(st, now).sessions.Valid() && sid !in Sessions.Reap(st, now).sessions.entries
    ensures var reaped := Sessions.Reap(st, now);
      Sessions.Evict(reaped).Some? ==> sid !in Sessions.Evict(reaped).value.sessions.entries
  {
    hide Sessions.Reap, Sessions.Oldest;
    Sessions.ReapRemovesExactlyTheStaleIdle(st, now);
  }

  lemma CreatedStore(st: Sessions.Store, sessionId: string, sessionKey: string, cwd: string, now: int)
    requires Sessions.Inv(st)
    ensures var after := Sessions.Create(st, sessionId, sessionKey, cwd, now).0;
      Sessions.Inv(after) && forall sid :: ActiveRun(after, sid) == ActiveRun(st, sid)
  {
    Sessions.CreateKeepsInv(st, sessionId, sessionKey, cwd, now);
    forall sid
      ensures ActiveRun(Sessions.Create(st, sessionId, sessionKey, cwd, now).0, sid) == ActiveRun(st, sid)
    {
      CreatedSession(st, sessionId, sessionKey, cwd, now, sid);
    }
  }

  // ----- what a step does to the map -----

  /** The map after a step that takes at most one session's entry. */
  ghost predicate Removes(b: Bridge, after: Bridge, removed: Option<string>)
  {
    && after.prompts.Keys == b.prompts.Keys
    && (forall r :: r in b.prompts ==> after.prompts[r].sessionId == b.prompts[r].sessionId)
    && after.pending.entries == if removed.Some? then b.pending.entries - {removed.value} else b.pending.entries
  }

  lemma FinishRemoves(b: Bridge, run: string)
    requires BridgeOk(b) && run in b.prompts
    ensures Removes(b, BeginFinish(b, run), Some(b.prompts[run].sessionId))
  {
  }

  lemma SendMap(s: System, k: nat, sent: SendResult)
    requires Inv(s) && Enabled(s, SendReturns(k, sent))
    ensures Removes(s.bridge, Step(s, SendReturns(k, sent)).bridge, ClearedBy(s, SendReturns(k, sent)))
  {
    hide BridgeOk, BeginFinish;
    assert TaskOk(s.bridge, s.tasks[k]);
    FinishRemoves(s.bridge, s.tasks[k].run);
  }

  lemma DeadlineMap(b: Bridge, run: string, ctx: Context)
    requires BridgeOk(b) && run in b.prompts
    ensures Removes(b, AtDeadline(b, run, ctx),
                    if ShouldReject(b, run, ctx) && IsPending(b, run) then Some(b.prompts[run].sessionId) else None)
  {
    hide BridgeOk, BeginFinish;
    FinishRemoves(b, run);
  }

  lemma WaitMap(s: System, k: nat, result: WaitResult)
    requires Inv(s) && Enabled(s, WaitReturns(k, result))
    ensures Removes(s.bridge, Step(s, WaitReturns(k, result)).bridge, ClearedBy(s, WaitReturns(k, result)))
  {
    hide BridgeOk, BeginFinish, AtDeadline, Removes, Cleared, KnownOutage;
    assert TaskOk(s.bridge, s.tasks[k]);
    var run := s.tasks[k].sweep.snapshot[s.tasks[k].sweep.next].1;
    FinishRemoves(s.bridge, run);
    DeadlineMap(s.bridge, run, s.tasks[k].ctx);
    NothingRemoved(s.bridge, s.bridge);
  }

  lemma NothingRemoved(b: Bridge, after: Bridge)
    requires after == b.(timer := after.timer, active := after.active, settlements := after.settlements)
    ensures Removes(b, after, None)
  {
  }

  lemma ChatMap(s: System, e: Event)
    requires Inv(s) && Enabled(s, e) && e.ChatArrives?
    ensures Removes(s.bridge, Step(s, e).bridge, ClearedBy(s, e))
  {
    hide BridgeOk, BeginFinish, Removes;
    NothingRemoved(s.bridge, s.bridge);
    var found := FindPending(s.bridge, e.sessionKey, e.named);
    if found.Some? {
      FinishRemoves(s.bridge, found.value);
    }
  }

  lemma ResumedMap(s: System, e: Event)
    requires Inv(s) && Enabled(s, e) && Resumption(e) && !e.SendReturns? && !e.WaitReturns?
    ensures Removes(s.bridge, Step(s, e).bridge, RemovedBy(s, e))
  {
    hide BridgeOk, BeginFinish, Removes, SweepOk, Cleared, NextEligible, EndSweep;
    var t, after := s.tasks[e.task], Step(s, e).bridge;
    assert TaskOk(s.bridge, t);
    if e.StreamReturns? || e.AbortReturns? {
      FinishRemoves(s.bridge, t.run);
      Settling(s.bridge, BeginFinish(s.bridge, t.run), Some(s.bridge.prompts[t.run].sessionId), after);
    }
    if !e.AbortReturns? && !(e.StreamReturns? && e.delivered) {
      NothingRemoved(s.bridge, after);
    }
  }

  lemma Settling(b: Bridge, mid: Bridge, removed: Option<string>, after: Bridge)
    requires Removes(b, mid, removed)
    ensures after == mid.(settlements := after.settlements) ==> Removes(b, after, removed)
  {
  }

  /** Whatever runs, the map loses at most the entry of the session the step removes; only an
      arriving prompt gains one. */
  lemma MapAfter(s: System, e: Event)
    requires Inv(s) && Enabled(s, e) && !e.PromptArrives?
    ensures Removes(s.bridge, Step(s, e).bridge, RemovedBy(s, e))
  {
    match e
    case SendReturns(k, sent) => SendMap(s, k, sent);
    case WaitReturns(k, result) => WaitMap(s, k, result);
    case ChatArrives(_, _, _, _) => ChatMap(s, e);
    case GatewayDown(reason) => DownMap(s.bridge, reason);
    case CancelArrives(_) =>
    case GatewayUp => NothingRemoved(s.bridge, Step(s, e).bridge);
    case TimerFires => NothingRemoved(s.bridge, Step(s, e).bridge);
    case _ => ResumedMap(s, e);
  }

  lemma DownMap(b: Bridge, reason: string)
    ensures Removes(b, Disconnect(b, reason), None)
  {
  }

  // ----- what a step does to the cancels at work -----

  lemma WaitMakesNoCancel(s: System, k: nat, result: WaitResult, j: nat)
    requires Inv(s) && Enabled(s, WaitReturns(k, result)) && j in Step(s, WaitReturns(k, result)).tasks
    requires Step(s, WaitReturns(k, result)).tasks[j].Cancelling?
    ensures j in s.tasks && s.tasks[j] == Step(s, WaitReturns(k, result)).tasks[j]
  {
    hide BridgeOk, SweepOk, Cleared, KnownOutage, AtDeadline, BeginFinish;
    assert TaskOk(s.bridge, s.tasks[k]);
  }

  /** A cancel at work was there before, or has just been asked for. */
  lemma CancellingOrigin(s: System, e: Event, k: nat)
    requires Inv(s) && Enabled(s, e) && k in Step(s, e).tasks && Step(s, e).tasks[k].Cancelling?
    ensures var t := Step(s, e).tasks[k];
      || (k in s.tasks && s.tasks[k] == t)
      || (e.CancelArrives? && s.bridge.pending.Get(e.sessionId) == Some(t.run))
  {
    hide BridgeOk, TaskOk, StartPrompt, Disconnect, BeginFinish, Entries, EndSweep, NextEligible, AfterWait,
         FindPending, AfterSend;
    if e.WaitReturns? {
      WaitMakesNoCancel(s, e.task, e.result, k);
    } else if e.SendReturns? {
      SendMakesNoCancel(s, e.task, e.sent, k);
    } else if Resumption(e) {
      assert TaskOk(s.bridge, s.tasks[e.task]);
    }
  }

  lemma SendMakesNoCancel(s: System, k: nat, sent: SendResult, j: nat)
    requires Inv(s) && Enabled(s, SendReturns(k, sent)) && j in Step(s, SendReturns(k, sent)).tasks
    requires Step(s, SendReturns(k, sent)).tasks[j].Cancelling?
    ensures j in s.tasks && s.tasks[j] == Step(s, SendReturns(k, sent)).tasks[j]
  {
    hide BridgeOk, FailSend, AcceptSend;
    assert TaskOk(s.bridge, s.tasks[k]);
  }

  /** A cancel stays at work until the answer to its abort. */
  lemma CancellingStays(s: System, e: Event, run: string)
    requires Inv(s) && Enabled(s, e) && BeingCancelled(s, run)
    ensures BeingCancelled(Step(s, e), run) || (e.AbortReturns? && s.tasks[e.task] == Cancelling(run))
  {
    hide Step, Inv;
    var k :| k in s.tasks && s.tasks[k] == Cancelling(run);
    InvBoundsTasks(s, k);
    if !Resumes(e, k) {
      if Resumption(e) {
        ResumptionsLeaveOthers(s, e, e.task, k);
      } else {
        ArrivalsOnlySpawn(s, e, k);
      }
      assert Step(s, e).tasks[k] == Cancelling(run);
    }
  }

  lemma InvBoundsTasks(s: System, k: nat)
    requires Inv(s) && k in s.tasks
    ensures k < s.nextTask
  {
  }

  // ----- the invariant -----

  /** How a step changes the active runs: in one session at most. */
  ghost predicate Reassigns(st: Sessions.Store, after: Sessions.Store, changed: Option<string>, run: Option<string>)
  {
    && Sessions.Inv(after)
    && forall sid :: ActiveRun(after, sid) == if Some(sid) == changed then run else ActiveRun(st, sid)
  }

  lemma StoreAfter(a: Agent, e: Event, controller: nat, now: int)
    requires AgentInv(a) && Accepts(a, Bridging(e, controller, now))
    ensures var after := StoreStep(a, e, controller, now);
      match e
      case PromptArrives(sid, _, run, _) => Reassigns(a.store, after, Some(sid), Some(run))
      case CancelArrives(sid) => Reassigns(a.store, after, Some(sid), None)
      case _ => Reassigns(a.store, after, ClearedBy(a.system, e), None)
  {
    hide Inv, Sessions.Inv, ClearedBy, Sessions.SetActive, Sessions.CancelActive, Sessions.ClearActive, ActiveRun,
         Sessions.TouchIfThere;
    match e
    case PromptArrives(sid, _, run, _) =>
      TouchedStore(a.store, sid, now);
      FreshRun(a, run);
      PromptedStore(Sessions.TouchIfThere(a.store, sid, now), sid, run, controller, now);
    case CancelArrives(sid) =>
      TouchedStore(a.store, sid, now);
      CancelledStore(Sessions.TouchIfThere(a.store, sid, now), sid, now);
    case _ =>
      if ClearedBy(a.system, e).Some? {
        ClearedStore(a.store, ClearedBy(a.system, e).value, now);
      }
  }

  lemma FreshRun(a: Agent, run: string)
    requires AgentInv(a) && run !in a.system.bridge.prompts
    ensures run !in a.store.runIds
  {
    forall r | r in a.store.runIds
      ensures r in a.system.bridge.prompts
    {
      assert ActiveRun(a.store, a.store.runIds[r]) == Some(r);
    }
  }

  lemma ArrivalMap(s: System, e: Event)
    requires Inv(s) && Enabled(s, e) && e.PromptArrives?
    ensures var b, after := s.bridge, Step(s, e).bridge;
      && after.prompts.Keys == b.prompts.Keys + {e.run} && after.prompts[e.run].sessionId == e.sessionId
      && (forall r :: r in b.prompts ==> after.prompts[r].sessionId == b.prompts[r].sessionId)
      && after.pending.entries == b.pending.entries[e.sessionId := e.run]
  {
  }

  lemma ArrivalKeepsAgent(a: Agent, e: Event, after: Agent)
    requires AgentInv(a) && e.PromptArrives? && Enabled(a.system, e) && after.system == Step(a.system, e)
    requires Reassigns(a.store, after.store, Some(e.sessionId), Some(e.run))
    ensures AgentInv(after) && (Linked(a) ==> Linked(after)) && (Covered(a) ==> Covered(after))
  {
    hide Sessions.Inv, ActiveRun, Inv, Enabled, Step, BeingCancelled;
    var s := a.system;
    StepKeeps(s, e);
    ArrivalMap(s, e);
    forall run | BeingCancelled(s, run)
      ensures BeingCancelled(after.system, run)
    {
      CancellingStays(s, e, run);
    }
    forall run | BeingCancelled(after.system, run)
      ensures BeingCancelled(s, run) && run in s.bridge.prompts
    {
      CancellingWas(s, e, run);
    }
    FreshIsPrompt(s, e);
  }

  lemma FreshIsPrompt(s: System, e: Event)
    requires Enabled(s, e) && e.PromptArrives?
    ensures e.run !in s.bridge.prompts
  {
  }

  lemma CancellingWas(s: System, e: Event, run: string)
    requires Inv(s) && Enabled(s, e) && BeingCancelled(Step(s, e), run)
    ensures BeingCancelled(s, run) || (e.CancelArrives? && s.bridge.pending.Get(e.sessionId) == Some(run))
    ensures BeingCancelled(s, run) ==> run in s.bridge.prompts
  {
    hide Step, BridgeOk;
    var k :| k in Step(s, e).tasks && Step(s, e).tasks[k] == Cancelling(run);
    CancellingOrigin(s, e, k);
    if BeingCancelled(s, run) {
      var j :| j in s.tasks && s.tasks[j] == Cancelling(run);
      assert TaskOk(s.bridge, s.tasks[j]);
    }
  }

  lemma CancelKeepsAgent(a: Agent, e: Event, after: Agent)
    requires AgentInv(a) && e.CancelArrives? && after.system == Step(a.system, e)
    requires Reassigns(a.store, after.store, Some(e.sessionId), None)
    ensures AgentInv(after) && (Linked(a) ==> Linked(after)) && (Covered(a) ==> Covered(after))
  {
    hide Sessions.Inv, ActiveRun;
    var s := a.system;
    StepKeeps(s, e);
    MapAfter(s, e);
    forall run | BeingCancelled(s, run)
      ensures BeingCancelled(after.system, run)
    {
      CancellingStays(s, e, run);
    }
    forall run | BeingCancelled(after.system, run)
      ensures BeingCancelled(s, run) || s.bridge.pending.Get(e.sessionId) == Some(run)
    {
      CancellingWas(s, e, run);
    }
    assert s.bridge.pending.Get(e.sessionId).Some? ==>
        after.system.tasks[s.nextTask] == Cancelling(s.bridge.pending.Get(e.sessionId).value);
    hide TaskOk;
  }

  /** Every other step takes a session's entry and active run together, but for the answer to
      an abort, which takes the entry only. */
  lemma OtherKeepsAgent(a: Agent, e: Event, after: Agent)
    requires AgentInv(a) && Enabled(a.system, e) && !e.PromptArrives? && !e.CancelArrives?
    requires after.system == Step(a.system, e)
    requires Reassigns(a.store, after.store, ClearedBy(a.system, e), None)
    ensures AgentInv(after) && (Covered(a) ==> Covered(after))
    ensures Linked(a) ==>
      (Linked(after) <==> !(e.AbortReturns? && ActiveRun(a.store, RemovedBy(a.system, e).value).Some?))
  {
    hide Sessions.Inv, ActiveRun, Step, Inv, Enabled, ClearedBy, RemovedBy, Reassigns, Removes, RunsKnown,
         Covered, CancelledIsInactive, BeingCancelled, Linked;
    var s, cleared, removed := a.system, ClearedBy(a.system, e), RemovedBy(a.system, e);
    StepKeeps(s, e);
    MapAfter(s, e);
    InvMap(s);
    TakenTogether(s, e);
    forall run | BeingCancelled(after.system, run)
      ensures BeingCancelled(s, run)
    {
      CancellingWas(s, e, run);
    }
    forall run | BeingCancelled(s, run) && !BeingCancelled(after.system, run)
      ensures run in s.bridge.prompts && removed == Some(SessionOf(s, run))
    {
      CancellingStays(s, e, run);
      TakenTogether(s, e);
    }
    KeepsRunsKnown(a, after, cleared, removed);
    KeepsCancelledInactive(a, after, cleared);
    if Covered(a) {
      KeepsCovered(a, after, cleared, removed);
    }
    if Linked(a) {
      LinkedExactly(a, after, cleared, removed);
    }
  }

  lemma KeepsRunsKnown(a: Agent, after: Agent, cleared: Option<string>, removed: Option<string>)
    requires RunsKnown(a.system, a.store) && Removes(a.system.bridge, after.system.bridge, removed)
    requires Reassigns(a.store, after.store, cleared, None)
    ensures RunsKnown(after.system, after.store) && Sessions.Inv(after.store)
  {
    hide Sessions.Inv, ActiveRun;
  }

  lemma KeepsCancelledInactive(a: Agent, after: Agent, cleared: Option<string>)
    requires CancelledIsInactive(a.system, a.store) && Reassigns(a.store, after.store, cleared, None)
    requires forall run :: BeingCancelled(after.system, run) ==> BeingCancelled(a.system, run)
    ensures CancelledIsInactive(after.system, after.store)
  {
    hide Sessions.Inv, ActiveRun, BeingCancelled;
  }

  lemma KeepsCovered(a: Agent, after: Agent, cleared: Option<string>, removed: Option<string>)
    requires Covered(a) && Removes(a.system.bridge, after.system.bridge, removed)
    requires Reassigns(a.store, after.store, cleared, None) && (cleared.Some? ==> cleared == removed)
    requires MapOk(a.system.bridge)
    requires forall run :: BeingCancelled(a.system, run) && !BeingCancelled(after.system, run) ==>
               run in a.system.bridge.prompts && removed == Some(SessionOf(a.system, run))
    ensures Covered(after)
  {
    hide Sessions.Inv, ActiveRun, BeingCancelled;
  }

  lemma LinkedExactly(a: Agent, after: Agent, cleared: Option<string>, removed: Option<string>)
    requires Linked(a) && Removes(a.system.bridge, after.system.bridge, removed)
    requires Reassigns(a.store, after.store, cleared, None) && (cleared.Some? ==> cleared == removed)
    ensures Linked(after) <==> !(removed != cleared && ActiveRun(a.store, removed.value).Some?)
  {
    hide Sessions.Inv, ActiveRun;
    if removed != cleared && ActiveRun(a.store, removed.value).Some? {
      assert ActiveRun(after.store, removed.value).Some? && removed.value !in after.system.bridge.pending.entries;
    }
  }

  /** What a step takes from the map is what it clears in the table, but for the answer to an
      abort. */
  lemma TakenTogether(s: System, e: Event)
    requires Inv(s) && Enabled(s, e)
    ensures e.AbortReturns? ==>
      && ClearedBy(s, e).None? && s.tasks[e.task].run in s.bridge.prompts
      && RemovedBy(s, e) == Some(SessionOf(s, s.tasks[e.task].run))
    ensures !e.AbortReturns? ==> RemovedBy(s, e) == ClearedBy(s, e)
  {
    if e.AbortReturns? {
      assert TaskOk(s.bridge, s.tasks[e.task]);
    }
  }

  // ----- over every step -----

  lemma AdvanceKeeps(a: Agent, input: Input)
    requires AgentInv(a) && Accepts(a, input)
    ensures AgentInv(Advance(a, input))
    ensures Linked(a) ==> (Linked(Advance(a, input)) <==> !Unlinks(a, input))
    ensures Covered(a) ==> (Covered(Advance(a, input)) <==> !Uncovers(a, input))
  {
    hide Step, Inv, Enabled, Sessions.Inv, ClearedBy, RemovedBy, StoreStep, Reassigns, RunsKnown, Covered,
         CancelledIsInactive, ActiveRun;
    match input
    case Bridging(e, controller, now) =>
      StoreAfter(a, e, controller, now);
      EnabledHere(a, input);
      if e.PromptArrives? {
        ArrivalKeepsAgent(a, e, Advance(a, input));
      } else if e.CancelArrives? {
        CancelKeepsAgent(a, e, Advance(a, input));
      } else {
        OtherKeepsAgent(a, e, Advance(a, input));
      }
    case Refusing(sessionId, now) =>
      TouchedStore(a.store, sessionId, now);
      CancelledStore(Sessions.TouchIfThere(a.store, sessionId, now), sessionId, now);
      RefusalKeepsAgent(a, sessionId, Advance(a, input));
    case Creating(sessionId, sessionKey, cwd, now) =>
      CreatedStore(a.store, sessionId, sessionKey, cwd, now);
      SameRuns(a, Advance(a, input));
    case Getting(sessionId, now) =>
      TouchedStore(a.store, sessionId, now);
      SameRuns(a, Advance(a, input));
  }

  lemma EnabledHere(a: Agent, input: Input)
    requires Accepts(a, input) && input.Bridging?
    ensures Enabled(a.system, input.event)
  {
  }

  lemma SameRuns(a: Agent, after: Agent)
    requires AgentInv(a) && after.system == a.system && Sessions.Inv(after.store)
    requires forall sid :: ActiveRun(after.store, sid) == ActiveRun(a.store, sid)
    ensures AgentInv(after) && (Linked(after) <==> Linked(a)) && (Covered(after) <==> Covered(a))
  {
    hide Inv, Sessions.Inv, ActiveRun, BeingCancelled;
  }

  lemma RefusalKeepsAgent(a: Agent, sessionId: string, after: Agent)
    requires AgentInv(a) && after.system == a.system && Sessions.Inv(after.store)
    requires forall sid :: ActiveRun(after.store, sid) == if sid == sessionId then None else ActiveRun(a.store, sid)
    ensures AgentInv(after) && (Linked(a) ==> Linked(after))
    ensures Covered(a) ==> (Covered(after) <==> !Uncovers(a, Refusing(sessionId, 0)))
  {
    hide Inv, Sessions.Inv, ActiveRun, BeingCancelled;
  }

  /** The entry that an answered abort takes away is another prompt's, whose run the table
      goes on calling active. */
  lemma UnlinkingTakesRival(a: Agent, input: Input)
    requires AgentInv(a) && Accepts(a, input) && Linked(a) && Unlinks(a, input)
    ensures var run := ActiveRun(a.store, RemovedBy(a.system, input.event).value).value;
      Takes(a.system, input.event, run) && IsRival(a.system, input.event.task, run)
  {
    hide Sessions.Inv, BridgeOk, ActiveRun;
    var s, k := a.system, input.event.task;
    assert TaskOk(s.bridge, s.tasks[k]);
    assert s.tasks[k] == Cancelling(s.tasks[k].run);
    assert BeingCancelled(s, s.tasks[k].run);
  }
}
