/** Runs of the bridge and its session table: when a session's active run and its entry in the
    map of pending prompts part, and what becomes of a session left busy. */
module BridgeOrphans {
  import opened Collections
  import opened GatewayBridge
  import opened BridgeInvariant
  import opened BridgeProtocol
  import opened BridgeTheorems
  import opened BridgeAccounting
  import opened BridgeAbandonment
  import opened BridgeTurns
  import opened BridgeSessions
  import Sessions

  // ----- over whole runs -----

  /** A finite run of the bridge and its table, from an empty table. */
  ghost predicate IsAgentRun(trace: seq<Agent>, inputs: seq<Input>)
  {
    && |trace| == |inputs| + 1
    && trace[0].system == START && trace[0].store.sessions == EmptyMap() && trace[0].store.runIds == map[]
    && trace[0].store.maxSessions >= 1
    && forall i {:trigger inputs[i]} :: 0 <= i < |inputs| ==>
         Accepts(trace[i], inputs[i]) && (AgentInv(trace[i]) ==> trace[i + 1] == Advance(trace[i], inputs[i]))
  }

  lemma BeginsLinked(a: Agent)
    requires a.system == START && a.store.sessions == EmptyMap() && a.store.runIds == map[] && a.store.maxSessions >= 1
    ensures AgentInv(a) && Linked(a) && Covered(a)
  {
    StartHoldsInv();
  }

  lemma {:induction false} AgentRunKeepsInv(trace: seq<Agent>, inputs: seq<Input>, i: nat)
    requires IsAgentRun(trace, inputs) && i < |trace|
    ensures AgentInv(trace[i])
  {
    hide AgentInv, Advance, Accepts;
    if i == 0 {
      BeginsLinked(trace[0]);
    } else {
      AgentRunKeepsInv(trace, inputs, i - 1);
      assert Accepts(trace[i - 1], inputs[i - 1]);
      AdvanceKeeps(trace[i - 1], inputs[i - 1]);
    }
  }

  /** Exactly one thing leaves a prompt in the map that is neither its session's active run nor
      being cancelled: a second prompt on the session that is refused for its size. */
  lemma OnlyARefusalUncovers(trace: seq<Agent>, inputs: seq<Input>, i: nat)
    requires IsAgentRun(trace, inputs) && i < |inputs| && Covered(trace[i])
    ensures Covered(trace[i + 1]) <==> !Uncovers(trace[i], inputs[i])
  {
    hide AgentInv, Advance, Accepts, Covered, Uncovers;
    AgentRunKeepsInv(trace, inputs, i);
    assert Accepts(trace[i], inputs[i]);
    AdvanceKeeps(trace[i], inputs[i]);
  }

  /** Exactly one thing leaves a session with an active run that is not its entry: the answer
      to an abort that arrives while the session has an active run. */
  lemma OnlyALateAbortUnlinks(trace: seq<Agent>, inputs: seq<Input>, i: nat)
    requires IsAgentRun(trace, inputs) && i < |inputs| && Linked(trace[i])
    ensures AgentInv(trace[i]) && (Linked(trace[i + 1]) <==> !Unlinks(trace[i], inputs[i]))
  {
    hide AgentInv, Advance, Accepts, Linked, Unlinks;
    AgentRunKeepsInv(trace, inputs, i);
    assert Accepts(trace[i], inputs[i]);
    AdvanceKeeps(trace[i], inputs[i]);
  }

  /** If the prompts of every session take turns, an active run is always its session's entry. */
  lemma {:induction false} TurnsStayLinked(trace: seq<Agent>, inputs: seq<Input>, i: nat)
    requires IsAgentRun(trace, inputs) && i < |trace|
    requires forall j :: 0 <= j < i && inputs[j].Bridging? ==> TakesTurns(trace[j].system, inputs[j].event)
    ensures Linked(trace[i]) && NoRivals(trace[i].system)
  {
    hide AgentInv, Accepts, Linked, NoRivals, TakesTurns, Unlinks, Advance;
    if i == 0 {
      BeginsLinked(trace[0]);
      NobodyAtStart();
    } else {
      TurnsStayLinked(trace, inputs, i - 1);
      AgentRunKeepsInv(trace, inputs, i - 1);
      assert Accepts(trace[i - 1], inputs[i - 1]);
      TurnStaysLinked(trace[i - 1], inputs[i - 1]);
    }
  }

  lemma TurnStaysLinked(a: Agent, input: Input)
    requires AgentInv(a) && Accepts(a, input) && Linked(a) && NoRivals(a.system)
    requires input.Bridging? ==> TakesTurns(a.system, input.event)
    ensures Linked(Advance(a, input)) && NoRivals(Advance(a, input).system)
  {
    hide Inv, Sessions.Inv, Linked, TakesTurns, Unlinks, Step, Takes, Enabled;
    AdvanceKeeps(a, input);
    NoRivalsNoUnlinking(a, input);
    if input.Bridging? {
      EnabledHere(a, input);
      StepKeepsNoRivals(a.system, input.event);
    }
  }

  lemma NoRivalsNoUnlinking(a: Agent, input: Input)
    requires AgentInv(a) && Accepts(a, input) && Linked(a) && NoRivals(a.system)
    ensures !Unlinks(a, input)
  {
    hide Inv, Sessions.Inv, Accepts, Linked, Unlinks, RemovedBy, ActiveRun;
    if Unlinks(a, input) {
      UnlinkingTakesRival(a, input);
    }
  }

  // ----- a session left busy -----

  /** The session's active run is not its entry in the map. */
  ghost predicate Orphaned(a: Agent, sid: string)
  {
    ActiveRun(a.store, sid).Some? && a.system.bridge.pending.Get(sid) != ActiveRun(a.store, sid)
  }

  /** The client prompts or cancels on the session, or work about a prompt of it ends by
      clearing its active run. */
  ghost predicate Frees(a: Agent, input: Input, sid: string)
    requires Inv(a.system)
  {
    || (input.Refusing? && input.sessionId == sid)
    || (&& input.Bridging? && Enabled(a.system, input.event)
        && match input.event
           case PromptArrives(sessionId, _, _, _) => sessionId == sid
           case CancelArrives(sessionId) => sessionId == sid
           case _ => ClearedBy(a.system, input.event) == Some(sid))
  }

  /** Such a session stays as it is, busy with a run that is not in the map, exactly until it
      is freed: creating sessions never removes it, however full and however idle. */
  lemma OrphansStayBusy(a: Agent, input: Input, sid: string)
    requires AgentInv(a) && Accepts(a, input) && Orphaned(a, sid)
    ensures var after := Advance(a, input);
      && (Orphaned(after, sid) && ActiveRun(after.store, sid) == ActiveRun(a.store, sid) <==> !Frees(a, input, sid))
  {
    hide Inv, Sessions.Inv, ClearedBy, RemovedBy, StoreStep, Step, Enabled, ActiveRun, RunsKnown, Covered,
         CancelledIsInactive;
    match input
    case Bridging(e, controller, now) =>
      EnabledHere(a, input);
      StoreAfter(a, e, controller, now);
      if e.PromptArrives? {
        ArrivalMap(a.system, e);
        KnownActive(a, sid);
        FreshIsPrompt(a.system, e);
      } else {
        MapAfter(a.system, e);
      }
    case Refusing(sessionId, now) =>
      TouchedStore(a.store, sessionId, now);
      CancelledStore(Sessions.TouchIfThere(a.store, sessionId, now), sessionId, now);
    case Creating(sessionId, sessionKey, cwd, now) => CreatedStore(a.store, sessionId, sessionKey, cwd, now);
    case Getting(sessionId, now) => TouchedStore(a.store, sessionId, now);
  }

  lemma KnownActive(a: Agent, sid: string)
    requires AgentInv(a) && ActiveRun(a.store, sid).Some?
    ensures ActiveRun(a.store, sid).value in a.system.bridge.prompts
  {
    hide Inv, Sessions.Inv, ActiveRun;
  }

  // ----- an example of it -----

  ghost predicate AgentReachable(a: Agent)
  {
    exists trace, inputs :: IsAgentRun(trace, inputs) && trace[|trace| - 1] == a
  }

  lemma AgentReaches(a: Agent, input: Input)
    requires AgentReachable(a) && Accepts(a, input)
    ensures AgentInv(a) && AgentReachable(Advance(a, input)) && AgentInv(Advance(a, input))
  {
    hide AgentInv, Accepts, Advance;
    var trace, inputs :| IsAgentRun(trace, inputs) && trace[|trace| - 1] == a;
    AgentRunKeepsInv(trace, inputs, |trace| - 1);
    AdvanceKeeps(a, input);
    var longer, all := trace + [Advance(a, input)], inputs + [input];
    forall i {:trigger all[i]} | 0 <= i < |all|
      ensures Accepts(longer[i], all[i]) && (AgentInv(longer[i]) ==> longer[i + 1] == Advance(longer[i], all[i]))
    {
      if i < |inputs| {
        assert inputs[i] == all[i] && trace[i] == longer[i] && trace[i + 1] == longer[i + 1];
      }
    }
    assert IsAgentRun(longer, all) && longer[|longer| - 1] == Advance(a, input);
  }

  /** A table with room for one session, which is "s", and its active run. */
  ghost predicate OnlySession(st: Sessions.Store, active: Option<string>)
  {
    && st.maxSessions == 1 && st.sessions.entries.Keys == {"s"} && st.sessions.entries["s"].sessionKey == "k"
    && ActiveRun(st, "s") == active
  }

  /** The sessions of the table and their keys. */
  ghost predicate SameSessions(st: Sessions.Store, after: Sessions.Store)
  {
    && after.maxSessions == st.maxSessions && after.sessions.entries.Keys == st.sessions.entries.Keys
    && (forall sid :: sid in st.sessions.entries ==>
          after.sessions.entries[sid].sessionKey == st.sessions.entries[sid].sessionKey)
  }

  lemma CallsKeepSessions(st: Sessions.Store, sessionId: string, run: string, controller: nat, now: int)
    ensures SameSessions(st, Sessions.TouchIfThere(st, sessionId, now))
    ensures SameSessions(st, Sessions.CancelActive(st, sessionId, now))
    ensures SameSessions(st, Sessions.ClearActive(st, sessionId, now))
    ensures SameSessions(st, Sessions.SetActive(st, sessionId, run, controller, now))
  {
  }

  lemma StoreKeepsSessions(a: Agent, e: Event, controller: nat, now: int)
    requires AgentInv(a) && Enabled(a.system, e)
    ensures SameSessions(a.store, StoreStep(a, e, controller, now))
  {
    hide Inv, Sessions.Inv, ClearedBy, Sessions.TouchIfThere, Sessions.CancelActive, Sessions.ClearActive,
         Sessions.SetActive, Enabled;
    var cleared := ClearedBy(a.system, e);
    if e.PromptArrives? || e.CancelArrives? {
      var sid := e.sessionId;
      var got := Sessions.TouchIfThere(a.store, sid, now);
      CallsKeepSessions(a.store, sid, "", controller, now);
      CallsKeepSessions(got, sid, "", controller, now);
      if e.PromptArrives? {
        CallsKeepSessions(Sessions.CancelActive(got, sid, now), sid, e.run, controller, now);
      }
    } else if cleared.Some? {
      CallsKeepSessions(a.store, cleared.value, "", controller, now);
    }
  }

  /** What a bridge event leaves active in session "s". */
  function ActiveAfter(s: System, e: Event, active: Option<string>): Option<string>
    requires Inv(s) && Enabled(s, e)
  {
    match e
    case PromptArrives(_, _, run, _) => Some(run)
    case CancelArrives(_) => None
    case _ => if ClearedBy(s, e) == Some("s") then None else active
  }

  /** One step of the example. */
  lemma Goes(a: Agent, e: Event, active: Option<string>) returns (b: Agent)
    requires AgentReachable(a) && AgentInv(a) && OnlySession(a.store, active) && Enabled(a.system, e)
    requires e.PromptArrives? ==> e.sessionId == "s" && e.sessionKey == "k" && e.run != ""
    requires e.CancelArrives? ==> e.sessionId == "s"
    ensures Accepts(a, Bridging(e, 0, 0)) && b == Advance(a, Bridging(e, 0, 0))
    ensures AgentReachable(b) && AgentInv(b) && OnlySession(b.store, ActiveAfter(a.system, e, active))
  {
    hide Inv, Sessions.Inv, ClearedBy, RemovedBy, StoreStep, Step, Enabled, ActiveRun, RunsKnown, Covered,
         CancelledIsInactive, AgentReachable;
    assert Accepts(a, Bridging(e, 0, 0));
    AgentReaches(a, Bridging(e, 0, 0));
    StoreAfter(a, e, 0, 0);
    StoreKeepsSessions(a, e, 0, 0);
    b := Advance(a, Bridging(e, 0, 0));
  }

  lemma SessionCreated() returns (a: Agent)
    ensures AgentReachable(a) && AgentInv(a) && a.system == START && OnlySession(a.store, None)
  {
    var empty := Agent(START, Sessions.Store(EmptyMap(), map[], {}, 1, 1000));
    assert IsAgentRun([empty], []);
    AgentReaches(empty, Creating("s", "k", "/", 0));
    a := Advance(empty, Creating("s", "k", "/", 0));
  }

  /** The prompt's session is cleared when the gateway reports "a" aborted, and in no other step
      up to the abort's answer. */
  lemma AcceptClears(run: string, s: System, k: nat)
    requires Inv(s) && Enabled(s, SendReturns(k, SendAccepted))
    ensures ClearedBy(s, SendReturns(k, SendAccepted)) == None
  {
  }

  lemma AbortedClears()
    requires Inv(AFTER_CANCEL_A) && Enabled(AFTER_CANCEL_A, ABORTED_A)
    ensures ClearedBy(AFTER_CANCEL_A, ABORTED_A) == Some("s")
  {
    hide Inv, FindPending;
    FoundA();
  }

  /** Prompt "b" is in the map, and its session's active run, when the late answer to the abort
      of "a" arrives. */
  lemma BehindTheAbort() returns (a: Agent)
    ensures AgentReachable(a) && AgentInv(a) && a.system == AFTER_ACCEPT_B && OnlySession(a.store, Some("b"))
  {
    hide AgentReachable, Step, ActiveRun, Inv, Enabled, ClearedBy, Sessions.Inv, RunsKnown, Covered,
         CancelledIsInactive, OnlySession;
    a := SessionCreated();
    ArriveA();
    a := Goes(a, ARRIVE_A, None);
    AcceptA();
    AcceptClears("a", a.system, 0);
    a := Goes(a, ACCEPT_A, Some("a"));
    CancelA();
    a := Goes(a, CANCEL_A, Some("a"));
    AbortedA();
    AbortedClears();
    a := Goes(a, ABORTED_A, None);
    FinishA();
    a := Goes(a, FINISH_A, None);
    ArriveB();
    a := Goes(a, ARRIVE_B, None);
    AcceptB();
    AcceptClears("b", a.system, 3);
    a := Goes(a, ACCEPT_B, Some("b"));
  }

  lemma LinkedBehind(a: Agent)
    requires AgentInv(a) && a.system == AFTER_ACCEPT_B && OnlySession(a.store, Some("b"))
    ensures Linked(a) && Unlinks(a, Bridging(ANSWER_A, 0, 0)) && ClearedBy(a.system, ANSWER_A).None?
    ensures Step(a.system, ANSWER_A).bridge.pending.Get("s") == None
  {
    hide Inv, Sessions.Inv;
    TakenTogether(a.system, ANSWER_A);
    MapAfter(a.system, ANSWER_A);
  }

  /** No new session can be created, at whatever time. */
  ghost predicate NoRoom(st: Sessions.Store)
  {
    && st.sessions.Valid()
    && forall sid, key, cwd, now :: sid !in st.sessions.entries ==> !Sessions.Create(st, sid, key, cwd, now).1
  }

  lemma BusyBlocks(st: Sessions.Store)
    requires Sessions.Inv(st) && OnlySession(st, Some("b"))
    ensures NoRoom(st)
  {
    hide Sessions.Create;
    SizeIsCardinality(st.sessions);
    assert |st.sessions.entries.Keys| == |st.sessions.entries|;
    forall sid, key, cwd, now | sid !in st.sessions.entries
      ensures !Sessions.Create(st, sid, key, cwd, now).1
    {
      Sessions.CreationFailsOnlyIfAllBusy(st, sid, key, cwd, now);
    }
  }

  /** The late answer leaves "b" abandoned, and its session busy with it: in this table no
      other session can be created any more. */
  lemma SessionLeftBusyExample() returns (a: Agent)
    ensures AgentReachable(a) && AgentInv(a) && Linked(a) && Accepts(a, Bridging(ANSWER_A, 0, 0))
    ensures Unlinks(a, Bridging(ANSWER_A, 0, 0))
    ensures var after := Advance(a, Bridging(ANSWER_A, 0, 0));
      AgentReachable(after) && Orphaned(after, "s") && Abandoned(after.system, "b") && NoRoom(after.store)
  {
    hide AgentReachable, Step, Inv, ClearedBy, RemovedBy, Sessions.Inv, RunsKnown, Covered,
         CancelledIsInactive, Abandoned, Reachable, Enabled, Takes, NoRoom;
    a := BehindTheAbort();
    LateAbortExample();
    LinkedBehind(a);
    var after := Goes(a, ANSWER_A, Some("b"));
    BusyBlocks(after.store);
  }
}
