/** What every synchronous stretch of the bridge keeps. */
module BridgeInvariant {
  import opened Collections
  import opened GatewayBridge

  /** `ctx` is the context made when its generation began, and the only one of it. */
  ghost predicate KnownOutage(b: Bridge, ctx: Context)
  {
    1 <= ctx.generation <= |b.outages| && b.outages[ctx.generation - 1] == ctx
  }

  /** A settlement made for a reply or event that names a run is of that run. */
  predicate CauseNamesRun(s: Settlement)
  {
    match s.cause
    case ChatEvent(Some(named)) => s.run == named
    case WaitReply(asked) => s.run == asked
    case _ => true
  }

  ghost predicate MapOk(b: Bridge)
  {
    && b.pending.Valid()
    && (forall sid :: sid in b.pending.entries ==>
          b.pending.entries[sid] in b.prompts && b.prompts[b.pending.entries[sid]].sessionId == sid)
  }

  ghost predicate OutagesOk(b: Bridge)
  {
    && b.generation == |b.outages|
    && (b.active.Some? ==> KnownOutage(b, b.active.value) && b.active.value.generation == b.generation)
    && (forall r :: r in b.prompts && b.prompts[r].disconnect.Some? ==> KnownOutage(b, b.prompts[r].disconnect.value))
  }

  /** While the gateway is down, every prompt in the map carries the current outage. */
  ghost predicate PendingCarryOutage(b: Bridge)
  {
    b.active.Some? ==> forall r :: IsPending(b, r) ==> b.prompts[r].disconnect == b.active
  }

  ghost predicate TimerOk(b: Bridge)
  {
    b.timer.Some? ==>
      && b.pending.entries != map[]
      && b.timer.value == b.generation && 1 <= b.generation
      && (b.active.Some? ==> b.timer.value == b.active.value.generation)
  }

  ghost predicate SettlementsOk(b: Bridge)
  {
    forall i :: 0 <= i < |b.settlements| ==> CauseNamesRun(b.settlements[i]) && b.settlements[i].run in b.prompts
  }

  ghost predicate BridgeOk(b: Bridge)
  {
    MapOk(b) && OutagesOk(b) && PendingCarryOutage(b) && TimerOk(b) && SettlementsOk(b)
  }

  /** `later` is a state `b` may turn into: nothing is forgotten, no prompt that left
      the map returns, and an outage that is over does not come back. */
  ghost predicate Extends(b: Bridge, later: Bridge)
  {
    && (forall r :: r in b.prompts ==>
          r in later.prompts && later.prompts[r].sessionId == b.prompts[r].sessionId)
    && (forall r :: r in b.prompts && IsPending(later, r) ==> IsPending(b, r))
    && b.outages <= later.outages
    && (later.active.Some? && later.active.value.generation <= |b.outages| ==> later.active == b.active)
    && b.settlements <= later.settlements
  }

  lemma ExtendsTransitive(a: Bridge, b: Bridge, c: Bridge)
    requires Extends(a, b) && Extends(b, c) && OutagesOk(b)
    ensures Extends(a, c)
  {
    forall r | r in a.prompts && IsPending(c, r)
      ensures IsPending(a, r)
    {
      assert r in b.prompts;
    }
  }

  lemma InitialOk()
    ensures BridgeOk(INITIAL)
  {
  }

  /** `after` is `b` less one entry of the map, and possibly less its timer. */
  ghost predicate LosesSession(b: Bridge, after: Bridge, sessionId: string)
  {
    && after == b.(pending := after.pending, timer := after.timer)
    && after.pending.Valid()
    && after.pending.entries == b.pending.entries - {sessionId}
    && (after.timer.Some? ==> after.timer == b.timer && after.pending.entries != map[])
  }

  lemma LosingSessionKeeps(b: Bridge, after: Bridge, sessionId: string)
    requires BridgeOk(b) && LosesSession(b, after, sessionId)
    ensures BridgeOk(after) && Extends(b, after)
    ensures forall r :: IsPending(after, r) <==> IsPending(b, r) && b.prompts[r].sessionId != sessionId
  {
    hide CauseNamesRun;
  }

  lemma RemoveSessionKeeps(b: Bridge, sessionId: string)
    requires BridgeOk(b)
    ensures BridgeOk(RemoveSession(b, sessionId)) && Extends(b, RemoveSession(b, sessionId))
    ensures forall r :: IsPending(RemoveSession(b, sessionId), r) <==>
              IsPending(b, r) && b.prompts[r].sessionId != sessionId
  {
    hide OutagesOk, PendingCarryOutage, SettlementsOk, Extends;
    LosingSessionKeeps(b, RemoveSession(b, sessionId), sessionId);
  }

  lemma SettleKeeps(b: Bridge, run: string, outcome: Outcome, cause: Cause)
    requires BridgeOk(b) && run in b.prompts && CauseNamesRun(Settlement(run, outcome, cause))
    ensures BridgeOk(Settle(b, run, outcome, cause)) && Extends(b, Settle(b, run, outcome, cause))
  {
    var after := Settle(b, run, outcome, cause);
    forall i | 0 <= i < |after.settlements|
      ensures CauseNamesRun(after.settlements[i]) && after.settlements[i].run in after.prompts
    {
      if i < |b.settlements| {
        assert after.settlements[i] == b.settlements[i];
      }
    }
    assert forall r :: IsPending(after, r) <==> IsPending(b, r);
  }

  /** Removing a session's entry and settling one prompt, in one step. */
  lemma RemoveAndSettleKeeps(b: Bridge, run: string, outcome: Outcome, cause: Cause)
    requires BridgeOk(b) && run in b.prompts && CauseNamesRun(Settlement(run, outcome, cause))
    ensures var after := Settle(BeginFinish(b, run), run, outcome, cause);
            BridgeOk(after) && Extends(b, after) && !IsPending(after, run)
  {
    RemoveSessionKeeps(b, b.prompts[run].sessionId);
    SettleKeeps(BeginFinish(b, run), run, outcome, cause);
    ExtendsTransitive(b, BeginFinish(b, run), Settle(BeginFinish(b, run), run, outcome, cause));
  }

  /** The same map and the same prompts, whatever has been noted about them. */
  lemma SamePrompts(b: Bridge, after: Bridge)
    requires MapOk(b) && SettlementsOk(b)
    requires after.pending == b.pending && after.settlements == b.settlements && after.prompts.Keys == b.prompts.Keys
    requires forall r :: r in b.prompts ==> after.prompts[r].sessionId == b.prompts[r].sessionId
    ensures MapOk(after) && SettlementsOk(after)
    ensures forall r :: IsPending(after, r) <==> IsPending(b, r)
  {
    hide CauseNamesRun;
  }

  lemma StartPromptKeeps(b: Bridge, sessionId: string, sessionKey: string, run: string)
    requires BridgeOk(b) && run !in b.prompts
    ensures BridgeOk(StartPrompt(b, sessionId, sessionKey, run))
            && Extends(b, StartPrompt(b, sessionId, sessionKey, run))
    ensures forall r :: r in b.prompts && IsPending(b, r) && b.prompts[r].sessionId != sessionId
                        ==> IsPending(StartPrompt(b, sessionId, sessionKey, run), r)
    ensures IsPending(StartPrompt(b, sessionId, sessionKey, run), run)
  {
    hide SettlementsOk, MapOk, OutagesOk;
    StartPromptKeepsMap(b, sessionId, sessionKey, run);
    StartPromptKeepsRest(b, sessionId, sessionKey, run);
  }

  lemma StartPromptKeepsMap(b: Bridge, sessionId: string, sessionKey: string, run: string)
    requires MapOk(b) && run !in b.prompts
    ensures var after := StartPrompt(b, sessionId, sessionKey, run);
      && MapOk(after) && IsPending(after, run)
      && (forall r :: r != run ==> (IsPending(after, r) <==> IsPending(b, r) && b.prompts[r].sessionId != sessionId))
  {
    var after := StartPrompt(b, sessionId, sessionKey, run);
    assert sessionId in after.pending.entries;
  }

  lemma StartPromptKeepsRest(b: Bridge, sessionId: string, sessionKey: string, run: string)
    requires OutagesOk(b) && SettlementsOk(b) && run !in b.prompts
    ensures OutagesOk(StartPrompt(b, sessionId, sessionKey, run))
            && SettlementsOk(StartPrompt(b, sessionId, sessionKey, run))
    ensures b.active.Some? ==> 1 <= b.active.value.generation == b.generation
  {
    hide CauseNamesRun;
  }

  lemma AcceptSendKeeps(b: Bridge, run: string)
    requires BridgeOk(b)
    ensures BridgeOk(AcceptSend(b, run)) && Extends(b, AcceptSend(b, run))
    ensures forall r :: IsPending(AcceptSend(b, run), r) <==> IsPending(b, r)
  {
    hide MapOk, SettlementsOk;
    SamePrompts(b, AcceptSend(b, run));
  }

  lemma ClearDisconnectStateKeeps(b: Bridge, run: string, ctx: Context)
    requires BridgeOk(b) && run in b.prompts
    requires IsPending(b, run) && b.active.Some? ==> b.active != Some(ctx)
    ensures BridgeOk(ClearDisconnectState(b, run, ctx)) && Extends(b, ClearDisconnectState(b, run, ctx))
    ensures forall r :: IsPending(ClearDisconnectState(b, run, ctx), r) <==> IsPending(b, r)
  {
    hide MapOk, SettlementsOk;
    SamePrompts(b, ClearDisconnectState(b, run, ctx));
  }

  /** The deadline rejects a prompt in the map as long as its own outage lasts. */
  lemma AtDeadlineKeeps(b: Bridge, run: string, ctx: Context)
    requires BridgeOk(b) && run in b.prompts && KnownOutage(b, ctx)
    ensures BridgeOk(AtDeadline(b, run, ctx)) && Extends(b, AtDeadline(b, run, ctx))
    ensures b.active == Some(ctx) ==> !IsPending(AtDeadline(b, run, ctx), run)
    ensures forall r :: r != run ==> (IsPending(AtDeadline(b, run, ctx), r) <==> IsPending(b, r))
  {
    if ShouldReject(b, run, ctx) {
      if IsPending(b, run) {
        RemoveSessionKeeps(b, b.prompts[run].sessionId);
        RemoveAndSettleKeeps(b, run, RejectedDisconnected(ctx.reason), Deadline(ctx.generation));
      }
    } else {
      ClearDisconnectStateKeeps(b, run, ctx);
    }
  }

  lemma DisconnectKeeps(b: Bridge, reason: string)
    requires BridgeOk(b)
    ensures BridgeOk(Disconnect(b, reason)) && Extends(b, Disconnect(b, reason))
    ensures forall r :: IsPending(Disconnect(b, reason), r) <==> IsPending(b, r)
  {
    hide MapOk, SettlementsOk, OutagesOk, TimerOk;
    var after := Disconnect(b, reason);
    assert after.prompts.Keys == b.prompts.Keys;
    SamePrompts(b, after);
    DisconnectKeepsOutages(b, reason);
    DisconnectArms(b, reason);
  }

  lemma DisconnectKeepsOutages(b: Bridge, reason: string)
    requires OutagesOk(b)
    ensures OutagesOk(Disconnect(b, reason)) && b.outages <= Disconnect(b, reason).outages
    ensures Disconnect(b, reason).active.Some? && Disconnect(b, reason).active.value.generation == |b.outages| + 1
  {
    hide IsPending;
    var after := Disconnect(b, reason);
    forall r | r in after.prompts && after.prompts[r].disconnect.Some?
      ensures KnownOutage(after, after.prompts[r].disconnect.value)
    {
      if after.prompts[r].disconnect == b.prompts[r].disconnect {
        assert KnownOutage(b, b.prompts[r].disconnect.value);
      }
    }
  }

  /** While prompts are in the map, a disconnect arms the timer. */
  lemma DisconnectArms(b: Bridge, reason: string)
    requires MapOk(b) && TimerOk(b)
    ensures TimerOk(Disconnect(b, reason))
    ensures b.pending.Size() == 0 ==> forall r :: !IsPending(b, r)
  {
    hide MarkPrompts;
  }

  lemma EndSweepKeeps(b: Bridge, sw: Sweep)
    requires BridgeOk(b)
    ensures BridgeOk(EndSweep(b, sw)) && Extends(b, EndSweep(b, sw))
    ensures forall r :: IsPending(EndSweep(b, sw), r) <==> IsPending(b, r)
  {
    hide CauseNamesRun;
  }
}
