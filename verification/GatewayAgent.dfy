/** The gateway agent as an object: each method is one stretch of its code between two
    awaits, updating the agent and its prompt objects in place. Every method is proved
    to do to `View()` what the protocol's functions say. */
module GatewayAgent {
  import opened Collections
  import opened GatewayBridge
  import opened SessionStore
  import Sessions

  class PendingPrompt {
    const sessionId: string
    const sessionKey: string
    const idempotencyKey: string
    var sendAccepted: bool
    var disconnectContext: Option<Context>

    constructor (sessionId: string, sessionKey: string, idempotencyKey: string, context: Option<Context>)
      ensures this.sessionId == sessionId && this.sessionKey == sessionKey && this.idempotencyKey == idempotencyKey
      ensures !sendAccepted && disconnectContext == context
    {
      this.sessionId := sessionId;
      this.sessionKey := sessionKey;
      this.idempotencyKey := idempotencyKey;
      sendAccepted := false;
      disconnectContext := context;
    }

    ghost function View(): Prompt
      reads this
    {
      Prompt(sessionId, sessionKey, sendAccepted, disconnectContext)
    }
  }

  /** The map as the protocol sees it, with the run of each prompt object. */
  ghost function RunsOf(m: OrderedMap<string, PendingPrompt>): (runs: OrderedMap<string, string>)
    ensures runs.order == m.order && runs.entries.Keys == m.entries.Keys
  {
    OrderedMap(map sid | sid in m.entries :: m.entries[sid].idempotencyKey, m.order)
  }

  lemma RunsOfSet(m: OrderedMap<string, PendingPrompt>, p: PendingPrompt)
    ensures RunsOf(m.Set(p.sessionId, p)) == RunsOf(m).Set(p.sessionId, p.idempotencyKey)
  {
    var runs := RunsOf(m);
    assert p.sessionId in m.entries <==> p.sessionId in runs.entries;
    assert RunsOf(m.Set(p.sessionId, p)).entries == runs.entries[p.sessionId := p.idempotencyKey];
  }

  lemma RunsOfDelete(m: OrderedMap<string, PendingPrompt>, sessionId: string)
    ensures RunsOf(m.Delete(sessionId)) == RunsOf(m).Delete(sessionId)
  {
    assert RunsOf(m.Delete(sessionId)).entries == RunsOf(m).entries - {sessionId};
  }

  lemma FailMeans(b: Bridge, run: string, gatewayClosed: bool)
    requires run in b.prompts
    ensures FailSend(b, run, gatewayClosed) == if gatewayClosed && IsPending(b, run) then b
                                               else Settle(BeginFinish(b, run), run, RejectedSend, SendFailure)
  {
  }

  class AcpGatewayAgent {
    const sessionStore: InMemorySessionStore
    var pendingPrompts: OrderedMap<string, PendingPrompt>
    var disconnectTimer: Option<nat>
    var activeDisconnectContext: Option<Context>
    var disconnectGeneration: nat

    // every prompt object made so far, every context, and every settling call
    ghost var made: map<string, PendingPrompt>
    ghost var outages: seq<Context>
    ghost var settlements: seq<Settlement>

    ghost predicate Valid()
      reads this
    {
      && pendingPrompts.Valid()
      && (forall r :: r in made ==> made[r].idempotencyKey == r)
      && (forall sid :: sid in pendingPrompts.entries ==>
            && pendingPrompts.entries[sid].sessionId == sid
            && pendingPrompts.entries[sid].idempotencyKey in made
            && made[pendingPrompts.entries[sid].idempotencyKey] == pendingPrompts.entries[sid])
    }

    ghost function PromptsView(): map<string, Prompt>
      reads this`made, made.Values
    {
      map r | r in made :: made[r].View()
    }

    ghost function View(): Bridge
      reads this, made.Values
    {
      Bridge(RunsOf(pendingPrompts), PromptsView(), disconnectTimer, activeDisconnectContext, disconnectGeneration,
             outages, settlements)
    }

    ghost predicate Made(p: PendingPrompt)
      reads this
    {
      p.idempotencyKey in made && made[p.idempotencyKey] == p
    }

    constructor (store: InMemorySessionStore)
      ensures Valid() && View() == INITIAL && sessionStore == store
    {
      sessionStore := store;
      pendingPrompts := EmptyMap();
      disconnectTimer := None;
      activeDisconnectContext := None;
      disconnectGeneration := 0;
      made, outages, settlements := map[], [], [];
    }

    /** `getPendingPrompt`: the session's entry, if it is the one of this run. */
    method GetPendingPrompt(sessionId: string, runId: string) returns (r: Option<PendingPrompt>)
      requires Valid()
      ensures r == if sessionId in pendingPrompts.entries && pendingPrompts.entries[sessionId].idempotencyKey == runId
                   then Some(pendingPrompts.entries[sessionId]) else None
    {
      var entry := pendingPrompts.Get(sessionId);
      if entry.Some? && entry.value.idempotencyKey == runId {
        return entry;
      }
      return None;
    }

    /** A prompt is in the map exactly if its session's entry has its run. */
    lemma PendingMeans(p: PendingPrompt)
      requires Valid() && Made(p)
      ensures p.idempotencyKey in View().prompts
      ensures IsPending(View(), p.idempotencyKey) <==>
              p.sessionId in pendingPrompts.entries && pendingPrompts.entries[p.sessionId] == p
      ensures IsPending(View(), p.idempotencyKey) <==>
              p.sessionId in pendingPrompts.entries
              && pendingPrompts.entries[p.sessionId].idempotencyKey == p.idempotencyKey
    {
    }

    method ClearDisconnectTimerIfIdle()
      requires Valid()
      modifies this`disconnectTimer
      ensures Valid() && View() == ClearTimerIfIdle(old(View()))
    {
      if pendingPrompts.Size() == 0 {
        disconnectTimer := None;
      }
    }

    method RemoveEntry(sessionId: string)
      requires Valid()
      modifies this`disconnectTimer, this`pendingPrompts
      ensures Valid() && View() == RemoveSession(old(View()), sessionId)
    {
      DeleteEntry(sessionId);
      ClearDisconnectTimerIfIdle();
    }

    ghost method CallSettle(p: PendingPrompt, outcome: Outcome, cause: Cause)
      requires Valid()
      modifies this`settlements
      ensures Valid() && View() == Settle(old(View()), p.idempotencyKey, outcome, cause)
    {
      settlements := settlements + [Settlement(p.idempotencyKey, outcome, cause)];
    }

    /** The entry of the prompt's session goes, its active run is cleared, and the prompt is settled. */
    method RemoveAndSettle(p: PendingPrompt, nowMs: int, ghost outcome: Outcome, ghost cause: Cause)
      requires Valid() && sessionStore.Valid() && Made(p)
      modifies this`pendingPrompts, this`disconnectTimer, this`settlements
      modifies sessionStore`runIdToSessionId, sessionStore.sessions.entries.Values
      ensures Valid() && sessionStore.Valid()
      ensures View() == Settle(BeginFinish(old(View()), p.idempotencyKey), p.idempotencyKey, outcome, cause)
      ensures sessionStore.View() == Sessions.ClearActive(old(sessionStore.View()), p.sessionId, nowMs)
    {
      hide RunsOf, PromptsView, Sessions.ClearActive;
      FinishPrompt(p, nowMs);
      CallSettle(p, outcome, cause);
    }

    ghost method Record(p: PendingPrompt)
      requires Valid() && p.idempotencyKey !in made
      modifies this`made
      ensures Valid() && made == old(made)[p.idempotencyKey := p]
      ensures View() == old(View()).(prompts := old(View()).prompts[p.idempotencyKey := p.View()])
    {
      made := made[p.idempotencyKey := p];
      assert View().prompts == old(View()).prompts[p.idempotencyKey := p.View()];
    }

    method SetEntry(p: PendingPrompt)
      requires Valid() && Made(p)
      modifies this`pendingPrompts
      ensures Valid() && View() == old(View()).(pending := old(View()).pending.Set(p.sessionId, p.idempotencyKey))
    {
      hide RunsOf, PromptsView;
      RunsOfSet(pendingPrompts, p);
      pendingPrompts := pendingPrompts.Set(p.sessionId, p);
    }

    method DeleteEntry(sessionId: string)
      requires Valid()
      modifies this`pendingPrompts
      ensures Valid() && View() == old(View()).(pending := old(View()).pending.Delete(sessionId))
    {
      hide RunsOf, PromptsView;
      RunsOfDelete(pendingPrompts, sessionId);
      pendingPrompts := pendingPrompts.Delete(sessionId);
    }

    /** The part of `prompt` that enters the new prompt in the map. */
    method EnterPrompt(sessionId: string, sessionKey: string, runId: string) returns (p: PendingPrompt)
      requires Valid() && runId !in made
      modifies this`pendingPrompts, this`disconnectTimer, this`made
      ensures Valid() && fresh(p) && Made(p) && made == old(made)[runId := p]
      ensures View() == StartPrompt(old(View()), sessionId, sessionKey, runId)
    {
      hide RunsOf, PromptsView;
      p := new PendingPrompt(sessionId, sessionKey, runId, activeDisconnectContext);
      Record(p);
      SetEntry(p);
      ArmTimerIfDown();
    }

    /** `prompt` on a session of the table: whatever runs there is cancelled, and the new run is
        made active and entered in the map. `None` stands for the error of an unknown session. */
    method Prompt(sessionId: string, runId: string, abortController: nat, nowMs: int) returns (p: Option<PendingPrompt>)
      requires Valid() && sessionStore.Valid() && runId !in made
      modifies this`pendingPrompts, this`disconnectTimer, this`made
      modifies sessionStore`runIdToSessionId, sessionStore`aborted, sessionStore.sessions.entries.Values
      ensures Valid() && sessionStore.Valid() && p.Some? == (sessionId in old(sessionStore.sessions.entries))
      ensures p.None? ==> View() == old(View()) && sessionStore.View() == old(sessionStore.View())
      ensures p.Some? ==> fresh(p.value) && Made(p.value) && made == old(made)[runId := p.value]
      ensures p.Some? ==>
        var key := old(sessionStore.sessions.entries[sessionId].sessionKey);
        View() == StartPrompt(old(View()), sessionId, key, runId)
      ensures p.Some? ==>
        var got := Sessions.TouchIfThere(old(sessionStore.View()), sessionId, nowMs);
        sessionStore.View()
        == Sessions.SetActive(Sessions.CancelActive(got, sessionId, nowMs), sessionId, runId, abortController, nowMs)
    {
      hide RunsOf, PromptsView, StartPrompt, Sessions.CancelActive, Sessions.SetActive, Sessions.TouchIfThere;
      var sessionKey := StartRun(sessionId, runId, abortController, nowMs);
      if sessionKey.None? {
        return None;
      }
      var entered := EnterPrompt(sessionId, sessionKey.value, runId);
      return Some(entered);
    }

    /** The part of `prompt` that is about the session table; returns the session's key. */
    method StartRun(sessionId: string, runId: string, abortController: nat, nowMs: int) returns (key: Option<string>)
      requires Valid() && sessionStore.Valid()
      modifies sessionStore`runIdToSessionId, sessionStore`aborted, sessionStore.sessions.entries.Values
      ensures Valid() && View() == old(View()) && sessionStore.Valid()
      ensures key == if sessionId in old(sessionStore.sessions.entries)
                     then Some(old(sessionStore.sessions.entries[sessionId].sessionKey)) else None
      ensures key.None? ==> sessionStore.View() == old(sessionStore.View())
      ensures key.Some? ==>
        var got := Sessions.TouchIfThere(old(sessionStore.View()), sessionId, nowMs);
        sessionStore.View()
        == Sessions.SetActive(Sessions.CancelActive(got, sessionId, nowMs), sessionId, runId, abortController, nowMs)
    {
      hide RunsOf, PromptsView, Sessions.CancelActive, Sessions.SetActive;
      key := Lookup(sessionId, nowMs);
      if key.Some? {
        CancelRun(sessionId, nowMs);
        SetRun(sessionId, runId, abortController, nowMs);
      }
    }

    /** `getSession`: the key of the session, which is touched. */
    method Lookup(sessionId: string, nowMs: int) returns (key: Option<string>)
      requires Valid() && sessionStore.Valid()
      modifies sessionStore.sessions.entries.Values
      ensures Valid() && View() == old(View()) && sessionStore.Valid()
      ensures sessionStore.View() == Sessions.TouchIfThere(old(sessionStore.View()), sessionId, nowMs)
      ensures key == if sessionId in old(sessionStore.sessions.entries)
                     then Some(old(sessionStore.sessions.entries[sessionId].sessionKey)) else None
    {
      hide RunsOf;
      var session := sessionStore.GetSession(sessionId, nowMs);
      if session.Some? {
        assert sessionStore.View().sessions.entries[sessionId].sessionKey == session.value.sessionKey;
        return Some(session.value.sessionKey);
      }
      return None;
    }

    method CancelRun(sessionId: string, nowMs: int)
      requires Valid() && sessionStore.Valid()
      modifies sessionStore`runIdToSessionId, sessionStore`aborted, sessionStore.sessions.entries.Values
      ensures Valid() && View() == old(View()) && sessionStore.Valid()
      ensures sessionStore.View() == Sessions.CancelActive(old(sessionStore.View()), sessionId, nowMs)
    {
      hide RunsOf, Sessions.CancelActive;
      var _ := sessionStore.CancelActiveRun(sessionId, nowMs);
    }

    method SetRun(sessionId: string, runId: string, abortController: nat, nowMs: int)
      requires Valid() && sessionStore.Valid()
      modifies sessionStore`runIdToSessionId, sessionStore.sessions.entries.Values
      ensures Valid() && View() == old(View()) && sessionStore.Valid()
      ensures sessionStore.View()
           == Sessions.SetActive(old(sessionStore.View()), sessionId, runId, abortController, nowMs)
    {
      hide RunsOf, Sessions.SetActive;
      sessionStore.SetActiveRun(sessionId, runId, abortController, nowMs);
    }

    /** `cancel` up to its await: the session's run is cancelled, and its entry is read. */
    method Cancel(sessionId: string, nowMs: int) returns (pending: Option<PendingPrompt>)
      requires Valid() && sessionStore.Valid()
      modifies sessionStore`runIdToSessionId, sessionStore`aborted, sessionStore.sessions.entries.Values
      ensures Valid() && View() == old(View()) && sessionStore.Valid()
      ensures pending == if sessionId in sessionStore.sessions.entries then pendingPrompts.Get(sessionId) else None
      ensures var got := Sessions.TouchIfThere(old(sessionStore.View()), sessionId, nowMs);
        sessionStore.View() == Sessions.CancelActive(got, sessionId, nowMs)
    {
      hide RunsOf, PromptsView;
      var key := Lookup(sessionId, nowMs);
      if key.None? {
        return None;
      }
      CancelRun(sessionId, nowMs);
      pending := pendingPrompts.Get(sessionId);
    }

    method ArmTimerIfDown()
      requires Valid()
      modifies this`disconnectTimer
      ensures Valid()
      ensures var b := old(View());
        View() == b.(timer := if b.active.Some? && b.timer.None? then Some(b.active.value.generation) else b.timer)
    {
      if activeDisconnectContext.Some? && disconnectTimer.None? {
        disconnectTimer := Some(activeDisconnectContext.value.generation);
      }
    }

    /** The send was acknowledged. */
    method SendSucceeded(p: PendingPrompt)
      requires Valid() && Made(p)
      modifies p`sendAccepted
      ensures Valid() && View() == AcceptSend(old(View()), p.idempotencyKey)
    {
      PendingMeans(p);
      var pending := GetPendingPrompt(p.sessionId, p.idempotencyKey);
      if pending.Some? {
        pending.value.sendAccepted := true;
        assert View().prompts == old(View()).prompts[p.idempotencyKey := p.View()];
      }
    }

    method StillPending(p: PendingPrompt) returns (pending: bool)
      requires Valid() && Made(p)
      ensures p.idempotencyKey in View().prompts && pending == IsPending(View(), p.idempotencyKey)
    {
      PendingMeans(p);
      var entry := GetPendingPrompt(p.sessionId, p.idempotencyKey);
      pending := entry.Some?;
    }

    /** The send failed for good. */
    method SendFailedFor(p: PendingPrompt, gatewayClosed: bool, nowMs: int)
      requires Valid() && sessionStore.Valid() && Made(p)
      modifies this`pendingPrompts, this`disconnectTimer, this`settlements
      modifies sessionStore`runIdToSessionId, sessionStore.sessions.entries.Values
      ensures Valid() && View() == FailSend(old(View()), p.idempotencyKey, gatewayClosed)
      ensures sessionStore.Valid()
      ensures sessionStore.View() == if gatewayClosed && old(IsPending(View(), p.idempotencyKey))
                                     then old(sessionStore.View())
                                     else Sessions.ClearActive(old(sessionStore.View()), p.sessionId, nowMs)
    {
      hide RunsOf, Settle, BeginFinish, PromptsView, Sessions.ClearActive, FailSend, IsPending;
      var pending := StillPending(p);
      FailMeans(View(), p.idempotencyKey, gatewayClosed);
      if gatewayClosed && pending {
        return;
      }
      RemoveAndSettle(p, nowMs, RejectedSend, SendFailure);
    }

    /** `finishPrompt` up to its await. */
    method FinishPrompt(p: PendingPrompt, nowMs: int)
      requires Valid() && sessionStore.Valid() && Made(p)
      modifies this`pendingPrompts, this`disconnectTimer
      modifies sessionStore`runIdToSessionId, sessionStore.sessions.entries.Values
      ensures Valid() && View() == BeginFinish(old(View()), p.idempotencyKey)
      ensures sessionStore.Valid()
      ensures sessionStore.View() == Sessions.ClearActive(old(sessionStore.View()), p.sessionId, nowMs)
    {
      hide RunsOf, PromptsView, Sessions.ClearActive, BeginFinish, RemoveSession;
      BeginsBy(View(), p);
      RemoveEntry(p.sessionId);
      assert sessionStore.View() == old(sessionStore.View());
      ClearActiveRun(p.sessionId, nowMs);
    }

    lemma BeginsBy(b: Bridge, p: PendingPrompt)
      requires Valid() && Made(p) && b == View()
      ensures BeginFinish(b, p.idempotencyKey) == RemoveSession(b, p.sessionId)
    {
    }

    /** The call leaves the agent's own state alone. */
    method ClearActiveRun(sessionId: string, nowMs: int)
      requires Valid() && sessionStore.Valid()
      modifies sessionStore`runIdToSessionId, sessionStore.sessions.entries.Values
      ensures Valid() && View() == old(View()) && sessionStore.Valid()
      ensures sessionStore.View() == Sessions.ClearActive(old(sessionStore.View()), sessionId, nowMs)
    {
      hide RunsOf, Sessions.ClearActive;
      sessionStore.ClearActiveRun(sessionId, nowMs);
    }

    /** The end of `finishPrompt`, after its await. */
    method ResolvePrompt(p: PendingPrompt, stop: StopReason, ghost cause: Cause)
      requires Valid()
      modifies this`settlements
      ensures Valid() && View() == Settle(old(View()), p.idempotencyKey, Resolved(stop), cause)
    {
      CallSettle(p, Resolved(stop), cause);
    }

    /** The tail of `cancel`, for the prompt it read from the map before its await. */
    method AbortReturned(p: PendingPrompt)
      requires Valid() && Made(p)
      modifies this`pendingPrompts, this`disconnectTimer, this`settlements
      ensures Valid() && View() == GatewayBridge.FinishCancel(old(View()), p.idempotencyKey)
    {
      RemoveEntry(p.sessionId);
      CallSettle(p, Resolved(Cancelled), CancelRequest);
    }

    method FindPendingBySessionKey(sessionKey: string, named: Option<string>) returns (r: Option<PendingPrompt>)
      requires Valid()
      ensures r.Some? ==> Made(r.value)
      ensures FindPending(View(), sessionKey, named) == if r.Some? then Some(r.value.idempotencyKey) else None
    {
      var i := 0;
      while i < |pendingPrompts.order|
        invariant 0 <= i <= |pendingPrompts.order|
        invariant FindPending(View(), sessionKey, named) == FindPending(View(), sessionKey, named, i)
      {
        assert pendingPrompts.order[i] in pendingPrompts.order;
        var pending := pendingPrompts.entries[pendingPrompts.order[i]];
        assert View().pending.entries[pendingPrompts.order[i]] == pending.idempotencyKey;
        assert View().prompts[pending.idempotencyKey].sessionKey == pending.sessionKey;
        if pending.sessionKey == sessionKey && (named.None? || pending.idempotencyKey == named.value) {
          return Some(pending);
        }
        i := i + 1;
      }
      return None;
    }

    /** A new outage: every prompt in the map is marked with its context. */
    method HandleGatewayDisconnect(reason: string)
      requires Valid()
      modifies this`disconnectGeneration, this`activeDisconnectContext, this`disconnectTimer, this`outages, made.Values
      ensures Valid() && made == old(made) && View() == Disconnect(old(View()), reason)
    {
      hide RunsOf, MarkPrompts, PromptsView;
      var disconnectContext := BeginOutage(reason);
      if pendingPrompts.Size() == 0 {
        return;
      }
      MarkPending(disconnectContext);
      disconnectTimer := Some(disconnectContext.generation);
    }

    method BeginOutage(reason: string) returns (disconnectContext: Context)
      requires Valid()
      modifies this`disconnectGeneration, this`activeDisconnectContext, this`outages
      ensures Valid() && View() == OpenOutage(old(View()), reason)
      ensures activeDisconnectContext == Some(disconnectContext)
    {
      disconnectContext := Context(disconnectGeneration + 1, reason);
      disconnectGeneration := disconnectContext.generation;
      activeDisconnectContext := Some(disconnectContext);
      outages := outages + [disconnectContext];
    }

    /** The loop of `handleGatewayDisconnect` over the prompts in the map. */
    method MarkPending(disconnectContext: Context)
      requires Valid()
      modifies made.Values
      ensures Valid() && made == old(made)
      ensures View() == MarkPrompts(old(View()), disconnectContext)
    {
      var i := 0;
      while i < |pendingPrompts.order|
        invariant 0 <= i <= |pendingPrompts.order|
        invariant Valid() && made == old(made)
        invariant forall r :: r in made ==>
                    made[r].View() == if Reached(made[r], i)
                      then old(made[r].View()).(disconnect := Some(disconnectContext))
                                      else old(made[r].View())
      {
        assert pendingPrompts.order[i] in pendingPrompts.order;
        var pending := pendingPrompts.entries[pendingPrompts.order[i]];
        pending.disconnectContext := Some(disconnectContext);
        assert pendingPrompts.order[..i + 1] == pendingPrompts.order[..i] + [pendingPrompts.order[i]];
        i := i + 1;
      }
      assert pendingPrompts.order[..i] == pendingPrompts.order;
      AllMarked(disconnectContext);
    }

    /** Every prompt in the map has been marked, and no other. */
    twostate lemma AllMarked(disconnectContext: Context)
      requires old(Valid()) && Valid() && made == old(made) && pendingPrompts == old(pendingPrompts)
      requires forall r :: r in made ==>
                 made[r].View() == if InMap(made[r]) then old(made[r].View()).(disconnect := Some(disconnectContext))
                                   else old(made[r].View())
      ensures PromptsView() == MarkPrompts(old(View()), disconnectContext).prompts
    {
      forall r | r in made
        ensures InMap(made[r]) <==> old(IsPending(View(), r))
      {
        assert made[r].idempotencyKey == r;
      }
    }

    ghost predicate InMap(p: PendingPrompt)
      reads this
    {
      p.sessionId in pendingPrompts.entries && pendingPrompts.entries[p.sessionId] == p
    }

    /** The prompt is in the map, under one of its first `n` keys. */
    ghost predicate Reached(p: PendingPrompt, n: nat)
      requires n <= |pendingPrompts.order|
      reads this
    {
      p.sessionId in pendingPrompts.order[..n] && InMap(p)
    }

    /** The gateway is back: returns the outage to reconcile, if there was one. */
    method HandleGatewayReconnect() returns (disconnectContext: Option<Context>)
      requires Valid()
      modifies this`activeDisconnectContext
      ensures Valid() && disconnectContext == old(activeDisconnectContext)
      ensures View() == old(View()).(active := None)
    {
      disconnectContext := activeDisconnectContext;
      activeDisconnectContext := None;
    }

    method RejectPendingPrompt(p: PendingPrompt, context: Context, nowMs: int)
      requires Valid() && sessionStore.Valid() && Made(p)
      modifies this`pendingPrompts, this`disconnectTimer, this`settlements
      modifies sessionStore`runIdToSessionId, sessionStore.sessions.entries.Values
      ensures Valid() && View() == RejectPending(old(View()), p.idempotencyKey, context)
      ensures sessionStore.Valid()
      ensures sessionStore.View() == if !old(IsPending(View(), p.idempotencyKey)) then old(sessionStore.View())
                                     else Sessions.ClearActive(old(sessionStore.View()), p.sessionId, nowMs)
    {
      hide RunsOf, Settle, BeginFinish, PromptsView, Sessions.ClearActive;
      PendingMeans(p);
      var current := GetPendingPrompt(p.sessionId, p.idempotencyKey);
      if current != Some(p) {
        return;
      }
      RemoveAndSettle(p, nowMs, RejectedDisconnected(context.reason), Deadline(context.generation));
    }

    method ClearPendingDisconnectState(p: PendingPrompt, context: Context)
      requires Valid() && Made(p)
      modifies p`disconnectContext
      ensures Valid() && View() == ClearDisconnectState(old(View()), p.idempotencyKey, context)
    {
      if p.disconnectContext != Some(context) {
        return;
      }
      p.disconnectContext := None;
      assert View().prompts == old(View()).prompts[p.idempotencyKey := p.View()];
    }

    /** What `reconcilePendingPrompt` does after a deadline's unanswered question. */
    method DeadlineExpired(p: PendingPrompt, context: Context, nowMs: int)
      requires Valid() && sessionStore.Valid() && Made(p)
      modifies this`pendingPrompts, this`disconnectTimer, this`settlements, p`disconnectContext
      modifies sessionStore`runIdToSessionId, sessionStore.sessions.entries.Values
      ensures Valid() && View() == AtDeadline(old(View()), p.idempotencyKey, context)
      ensures sessionStore.Valid()
      ensures var rejects := old(ShouldReject(View(), p.idempotencyKey, context)
                                 && IsPending(View(), p.idempotencyKey));
        sessionStore.View() == if !rejects then old(sessionStore.View())
                               else Sessions.ClearActive(old(sessionStore.View()), p.sessionId, nowMs)
    {
      var shouldReject := p.disconnectContext == Some(context)
        && (!p.sendAccepted
            || (activeDisconnectContext.Some? && activeDisconnectContext.value.generation == context.generation));
      if shouldReject {
        RejectPendingPrompt(p, context, nowMs);
      } else {
        ClearPendingDisconnectState(p, context);
      }
    }

    /** The loop of `reconcilePendingPrompts` from entry `from` to its next await, or to
        the end of its snapshot, which is the list of prompt objects it copied. */
    method AdvanceSweep(generation: nat, deadlineExpired: bool, snapshot: seq<(string, PendingPrompt)>,
                        from: nat, keepTimer: bool) returns (i: nat)
      requires Valid() && from <= |snapshot|
      requires forall j :: 0 <= j < |snapshot| ==> Made(snapshot[j].1) && snapshot[j].1.sessionId == snapshot[j].0
      modifies this`disconnectTimer
      ensures Valid()
      ensures var sw := Sweep(generation, deadlineExpired, Keys(snapshot), from, keepTimer);
        && i == NextEligible(old(View()), sw, from)
        && View() == if i == |snapshot| then EndSweep(old(View()), sw) else old(View())
    {
      ghost var sw, b := Sweep(generation, deadlineExpired, Keys(snapshot), from, keepTimer), View();
      i := from;
      while i < |snapshot|
        invariant from <= i <= |snapshot|
        invariant View() == b && NextEligible(b, sw, from) == NextEligible(b, sw, i)
      {
        var (sessionId, pending) := snapshot[i];
        PendingMeans(pending);
        var current := pendingPrompts.Get(sessionId);
        assert Eligible(b, generation, sw.snapshot[i]) <==>
               current == Some(pending) && b.prompts[pending.idempotencyKey].disconnect.Some?
               && b.prompts[pending.idempotencyKey].disconnect.value.generation == generation;
        if current == Some(pending)
           && pending.disconnectContext.Some? && pending.disconnectContext.value.generation == generation {
          return;
        }
        i := i + 1;
      }
      if !keepTimer && disconnectGeneration == generation {
        disconnectTimer := None;
      }
      assert View() == b.(timer := disconnectTimer);
    }

    static ghost function Keys(snapshot: seq<(string, PendingPrompt)>): (s: seq<(string, string)>)
      ensures |s| == |snapshot|
    {
      seq(|snapshot|, i requires 0 <= i < |snapshot| => (snapshot[i].0, snapshot[i].1.idempotencyKey))
    }

    /** The copy of the map's entries that a sweep works through. */
    method CopyEntries() returns (snapshot: seq<(string, PendingPrompt)>)
      requires Valid()
      ensures forall j :: 0 <= j < |snapshot| ==> Made(snapshot[j].1) && snapshot[j].1.sessionId == snapshot[j].0
      ensures View().pending.Valid() && Keys(snapshot) == Entries(View())
    {
      snapshot := [];
      var i := 0;
      while i < |pendingPrompts.order|
        invariant 0 <= i == |snapshot| <= |pendingPrompts.order|
        invariant forall j :: 0 <= j < i ==>
                    && pendingPrompts.order[j] in pendingPrompts.entries
                    && snapshot[j] == (pendingPrompts.order[j], pendingPrompts.entries[pendingPrompts.order[j]])
      {
        assert pendingPrompts.order[i] in pendingPrompts.order;
        snapshot := snapshot + [(pendingPrompts.order[i], pendingPrompts.entries[pendingPrompts.order[i]])];
        i := i + 1;
      }
      assert View().pending.Valid();
      assert Keys(snapshot) == Entries(View());
    }
  }
}
