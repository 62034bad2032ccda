/** What a history of calls leaves in the session table (src/acp/session.ts): when each
    session was last touched, who set its run, and which controllers were aborted. */
module SessionHistory {
  import opened Collections
  import opened Sessions

  /** The call is one of the session `sid`, given the table it finds. */
  predicate Reaches(st: Store, op: Op, sid: string)
  {
    match op
    case GetSessionByRun(runId) =>
      sid != "" && sid in st.sessions.entries && st.sessions.entries[sid].activeRunId == Some(runId)
    case CancelActiveRun(sessionId) =>
      sessionId == sid && sid in st.sessions.entries && st.sessions.entries[sid].abortController.Some?
    case _ => op.sessionId == sid
  }

  /** The call starts or ends what the session has active. */
  predicate Redirects(op: Op, sid: string)
  {
    (op.SetActiveRun? || op.ClearActiveRun? || op.CancelActiveRun?) && op.sessionId == sid
  }

  /** A record's run and controller, when the call is done. */
  ghost predicate ActivityFollows(was: Session, later: Session, op: Op, sid: string)
  {
    && (!Redirects(op, sid) ==>
          later.activeRunId == was.activeRunId && later.abortController == was.abortController)
    && (Redirects(op, sid) && op.SetActiveRun? ==>
          later.activeRunId == Some(op.runId) && later.abortController == Some(op.controller))
    && (Redirects(op, sid) && !op.SetActiveRun? ==> later.activeRunId.None? && later.abortController.None?)
  }

  /** Only creating a session again gives it another key or directory; nothing changes
      when it was created. */
  ghost predicate IdentityFollows(was: Session, later: Session, op: Op, sid: string)
  {
    && later.createdAt == was.createdAt
    && (if op.CreateSession? && op.sessionId == sid then later.sessionKey == op.sessionKey && later.cwd == op.cwd
        else later.sessionKey == was.sessionKey && later.cwd == was.cwd)
  }

  /** A session that stays in the table. */
  lemma CallChangesExactly(st: Store, op: Op, now: int, sid: string)
    requires Inv(st) && sid in st.sessions.entries && sid in Apply(st, op, now).sessions.entries
    ensures var was, later := st.sessions.entries[sid], Apply(st, op, now).sessions.entries[sid];
      && later.lastTouchedAt == (if Reaches(st, op, sid) then now else was.lastTouchedAt)
      && IdentityFollows(was, later, op, sid)
      && ActivityFollows(was, later, op, sid)
  {
    hide Inv, Apply;
    if op.CreateSession? {
      CreationChanges(st, op, now, sid);
    } else if op.GetSessionByRun? {
      LookupChanges(st, op.runId, now, sid);
    } else {
      CallOnIdChanges(st, op, now, sid);
    }
  }

  lemma CallOnIdChanges(st: Store, op: Op, now: int, sid: string)
    requires Inv(st) && sid in st.sessions.entries && !op.CreateSession? && !op.GetSessionByRun?
    ensures var was, after := st.sessions.entries[sid], Apply(st, op, now).sessions;
      && sid in after.entries
      && after.entries[sid].lastTouchedAt == (if Reaches(st, op, sid) then now else was.lastTouchedAt)
      && IdentityFollows(was, after.entries[sid], op, sid)
      && ActivityFollows(was, after.entries[sid], op, sid)
  {
    var was := st.sessions.entries[sid];
    assert was.activeRunId.Some? <==> was.abortController.Some?;
    hide Inv;
    if op.sessionId == sid {
      match op {
        case GetSession(_) =>
          assert Apply(st, op, now).sessions.entries[sid] == was.(lastTouchedAt := now);
        case SetActiveRun(_, runId, controller) =>
          assert Apply(st, op, now).sessions.entries[sid]
              == was.(activeRunId := Some(runId), abortController := Some(controller), lastTouchedAt := now);
        case _ =>
          EndingChanges(st, op, now);
      }
    } else {
      assert Apply(st, op, now).sessions.entries[sid] == was;
    }
  }

  lemma EndingChanges(st: Store, op: Op, now: int)
    requires st.sessions.Valid()
    requires (op.ClearActiveRun? || op.CancelActiveRun?) && op.sessionId in st.sessions.entries
    ensures var was, after := st.sessions.entries[op.sessionId], Apply(st, op, now).sessions;
      && op.sessionId in after.entries
      && after.entries[op.sessionId]
         == if op.CancelActiveRun? && was.abortController.None? then was
            else was.(activeRunId := None, abortController := None, lastTouchedAt := now)
  {
  }

  lemma LookupChanges(st: Store, runId: string, now: int, sid: string)
    requires Inv(st) && sid in st.sessions.entries
    ensures var was, later := st.sessions.entries[sid], Apply(st, GetSessionByRun(runId), now).sessions;
      && sid in later.entries
      && later.entries[sid] == if Reaches(st, GetSessionByRun(runId), sid) then was.(lastTouchedAt := now) else was
  {
  }

  lemma CreationChanges(st: Store, op: Op, now: int, sid: string)
    requires op.CreateSession? && Inv(st)
    requires sid in st.sessions.entries && sid in Apply(st, op, now).sessions.entries
    ensures var was, later := st.sessions.entries[sid], Apply(st, op, now).sessions.entries[sid];
      later == if op.sessionId == sid then was.(sessionKey := op.sessionKey, cwd := op.cwd, lastTouchedAt := now)
               else was
  {
    hide Reap, Evict, IndexIsInverse;
    if op.sessionId != sid {
      CreationDropsOnlyIdle(st, op.sessionId, op.sessionKey, op.cwd, now, sid);
    }
  }

  /** A session that was not there begins idle, as the call that creates it says. */
  lemma NewSessionsAreIdle(st: Store, op: Op, now: int, sid: string)
    requires Inv(st) && sid !in st.sessions.entries && sid in Apply(st, op, now).sessions.entries
    ensures op.CreateSession? && op.sessionId == sid
    ensures Apply(st, op, now).sessions.entries[sid] == Session(op.sessionKey, op.cwd, now, now, None, None)
  {
    if op.CreateSession? {
      hide IndexIsInverse, Reap, Reapable;
      ReapRemovesExactlyTheStaleIdle(st, now);
    } else {
      hide Create, IndexIsInverse;
    }
  }

  /** The controller the call aborts. */
  predicate Aborts(st: Store, op: Op, controller: nat)
  {
    && op.CancelActiveRun? && op.sessionId in st.sessions.entries
    && st.sessions.entries[op.sessionId].abortController == Some(controller)
  }

  /** A call aborts the controller of the run it cancels and no other; making room aborts
      nobody. */
  lemma CallAbortsExactly(st: Store, op: Op, now: int, controller: nat)
    requires Inv(st)
    ensures controller in Apply(st, op, now).aborted <==> controller in st.aborted || Aborts(st, op, controller)
  {
    if op.CreateSession? {
      CreationAbortsNobody(st, op.sessionId, op.sessionKey, op.cwd, now);
    }
  }

  lemma CreationAbortsNobody(st: Store, sessionId: string, sessionKey: string, cwd: string, now: int)
    requires Inv(st)
    ensures Create(st, sessionId, sessionKey, cwd, now).0.aborted == st.aborted
  {
    ReapRemovesExactlyTheStaleIdle(st, now);
    EvictionPicksLeastTouchedIdle(Reap(st, now));
  }

  // ----- over whole histories -----

  lemma At(states: seq<Store>, calls: seq<(Op, int)>, i: nat)
    requires History(states, calls) && i < |calls|
    ensures Inv(states[i]) && states[i + 1] == Apply(states[i], calls[i].0, calls[i].1)
  {
    HistoryKeepsInv(states, calls, i);
    assert Disciplined(states[i], calls[i].0);
  }

  /** A controller has been aborted if and only if some call cancelled its run. */
  lemma {:induction false} AbortedExactly(states: seq<Store>, calls: seq<(Op, int)>, i: nat, controller: nat)
    requires History(states, calls) && i < |states|
    ensures controller in states[i].aborted <==>
      controller in states[0].aborted
      || exists j | 0 <= j < i :: Aborts(states[j], calls[j].0, controller)
  {
    hide Inv, Apply, Disciplined, Aborts;
    if i > 0 {
      AbortedExactly(states, calls, i - 1, controller);
      At(states, calls, i - 1);
      CallAbortsExactly(states[i - 1], calls[i - 1].0, calls[i - 1].1, controller);
    }
  }

  /** The last of the first `i` calls that reached the session was the `j`-th. */
  ghost predicate LastReach(states: seq<Store>, calls: seq<(Op, int)>, i: nat, j: nat, sid: string)
    requires i <= |calls| && i <= |states|
  {
    && j < i && Reaches(states[j], calls[j].0, sid)
    && (forall k | j < k < i :: !Reaches(states[k], calls[k].0, sid))
  }

  /** The touch time of a session is the time of the last call that reached it. */
  lemma {:induction false} TouchedByTheLastCall(states: seq<Store>, calls: seq<(Op, int)>, i: nat, sid: string)
    returns (j: nat)
    requires History(states, calls) && i < |states| && sid in states[i].sessions.entries
    ensures LastReach(states, calls, i, j, sid)
    ensures states[i].sessions.entries[sid].lastTouchedAt == calls[j].1
  {
    hide Inv, Apply, Disciplined, IdentityFollows, ActivityFollows;
    assert sid !in states[0].sessions.entries;
    At(states, calls, i - 1);
    if sid in states[i - 1].sessions.entries {
      CallChangesExactly(states[i - 1], calls[i - 1].0, calls[i - 1].1, sid);
    } else {
      NewSessionsAreIdle(states[i - 1], calls[i - 1].0, calls[i - 1].1, sid);
    }
    if Reaches(states[i - 1], calls[i - 1].0, sid) {
      j := i - 1;
    } else {
      j := TouchedByTheLastCall(states, calls, i - 1, sid);
    }
  }

  /** The `j`-th call started a run on the session, and none before the `i`-th ended it. */
  ghost predicate Started(calls: seq<(Op, int)>, i: nat, j: nat, sid: string)
    requires i <= |calls|
  {
    && j < i && calls[j].0.SetActiveRun? && calls[j].0.sessionId == sid
    && (forall k | j < k < i :: !Redirects(calls[k].0, sid))
  }

  /** What a session has active is what the last call to start a run on it gave it. */
  lemma {:induction false} ActiveWasStarted(states: seq<Store>, calls: seq<(Op, int)>, i: nat, sid: string)
    returns (j: nat)
    requires History(states, calls) && i < |states| && sid in states[i].sessions.entries
    requires Busy(states[i].sessions.entries[sid])
    ensures Started(calls, i, j, sid)
    ensures states[i].sessions.entries[sid].activeRunId == Some(calls[j].0.runId)
    ensures states[i].sessions.entries[sid].abortController == Some(calls[j].0.controller)
  {
    hide Inv, Apply, Disciplined, IdentityFollows, Reaches;
    assert sid !in states[0].sessions.entries;
    At(states, calls, i - 1);
    if sid in states[i - 1].sessions.entries {
      CallChangesExactly(states[i - 1], calls[i - 1].0, calls[i - 1].1, sid);
    } else {
      NewSessionsAreIdle(states[i - 1], calls[i - 1].0, calls[i - 1].1, sid);
    }
    if Redirects(calls[i - 1].0, sid) {
      j := i - 1;
    } else {
      j := ActiveWasStarted(states, calls, i - 1, sid);
    }
  }

  /** And it stays active until a call ends it: a session is never removed in between. */
  lemma {:induction false} StartedStaysActive(states: seq<Store>, calls: seq<(Op, int)>, i: nat, j: nat, sid: string)
    requires History(states, calls) && i < |states|
    requires Started(calls, i, j, sid) && sid in states[j].sessions.entries
    ensures sid in states[i].sessions.entries
    ensures states[i].sessions.entries[sid].activeRunId == Some(calls[j].0.runId)
    ensures states[i].sessions.entries[sid].abortController == Some(calls[j].0.controller)
    decreases i
  {
    hide Inv, Apply, Disciplined, IdentityFollows, Reaches;
    At(states, calls, i - 1);
    if j < i - 1 {
      StartedStaysActive(states, calls, i - 1, j, sid);
    }
    BusyStays(states[i - 1], calls[i - 1].0, calls[i - 1].1, sid);
    CallChangesExactly(states[i - 1], calls[i - 1].0, calls[i - 1].1, sid);
  }

  lemma BusyStays(st: Store, op: Op, now: int, sid: string)
    requires Inv(st) && sid in st.sessions.entries
    requires op.CreateSession? ==> op.sessionId == sid || Busy(st.sessions.entries[sid])
    ensures sid in Apply(st, op, now).sessions.entries
  {
    if op.CreateSession? && op.sessionId != sid {
      CreationDropsOnlyIdle(st, op.sessionId, op.sessionKey, op.cwd, now, sid);
    }
  }
}
