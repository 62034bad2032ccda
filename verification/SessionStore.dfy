/** The session table as the source keeps it: a map of session objects updated in
    place. Each method is proved to do to `View()` what the functions of `Sessions` say. */
module SessionStore {
  import opened Collections
  import opened Sessions

  class AcpSession {
    const sessionId: string
    var sessionKey: string
    var cwd: string
    var createdAt: int
    var lastTouchedAt: int
    var abortController: Option<nat>
    var activeRunId: Option<string>

    constructor (sessionId: string, sessionKey: string, cwd: string, nowMs: int)
      ensures this.sessionId == sessionId
      ensures View() == Session(sessionKey, cwd, nowMs, nowMs, None, None)
    {
      this.sessionId := sessionId;
      this.sessionKey := sessionKey;
      this.cwd := cwd;
      createdAt, lastTouchedAt := nowMs, nowMs;
      abortController, activeRunId := None, None;
    }

    ghost function View(): Session
      reads this
    {
      Session(sessionKey, cwd, createdAt, lastTouchedAt, abortController, activeRunId)
    }

    predicate IsBusy()
      reads this
      ensures IsBusy() == Busy(View())
    {
      (activeRunId.Some? && activeRunId.value != "") || abortController.Some?
    }
  }

  class InMemorySessionStore {
    const maxSessions: nat
    const idleTtlMs: nat
    var sessions: OrderedMap<string, AcpSession>
    var runIdToSessionId: map<string, string>
    ghost var aborted: set<nat>

    ghost predicate Valid()
      reads this
    {
      && sessions.Valid()
      && (forall sid :: sid in sessions.entries ==> sessions.entries[sid].sessionId == sid)
    }

    ghost function Records(): map<string, Session>
      reads this, sessions.entries.Values
    {
      map sid | sid in sessions.entries :: sessions.entries[sid].View()
    }

    ghost function View(): Store
      reads this, sessions.entries.Values
    {
      Store(OrderedMap(Records(), sessions.order), runIdToSessionId, aborted, maxSessions, idleTtlMs)
    }

    constructor (maxSessions: int, idleTtlMs: int)
      ensures Valid()
      ensures View() == Store(EmptyMap(), map[], {}, if maxSessions < 1 then 1 else maxSessions,
                              if idleTtlMs < 1000 then 1000 else idleTtlMs)
    {
      this.maxSessions := if maxSessions < 1 then 1 else maxSessions;
      this.idleTtlMs := if idleTtlMs < 1000 then 1000 else idleTtlMs;
      sessions := EmptyMap();
      runIdToSessionId := map[];
      aborted := {};
    }

    /** Calls `abort` on the session's controller, if it has one. */
    ghost method CallAbort(session: AcpSession)
      requires Valid()
      modifies this`aborted
      ensures Valid() && View() == Abort(old(View()), session.View())
    {
      if session.abortController.Some? {
        aborted := aborted + {session.abortController.value};
      }
    }

    method DropRunId(session: AcpSession)
      requires Valid()
      modifies this`runIdToSessionId
      ensures Valid() && View() == Unindex(old(View()), session.View())
    {
      if session.activeRunId.Some? && session.activeRunId.value != "" {
        runIdToSessionId := runIdToSessionId - {session.activeRunId.value};
      }
    }

    /** The fields of one session object of the table have been assigned. */
    twostate lemma Rewritten(session: AcpSession)
      requires old(Valid()) && Valid() && sessions == old(sessions)
      requires session.sessionId in sessions.entries && sessions.entries[session.sessionId] == session
      requires forall sid :: sid in sessions.entries && sid != session.sessionId ==>
                 sessions.entries[sid].View() == old(sessions.entries[sid].View())
      ensures View().sessions == old(View()).sessions.Set(session.sessionId, session.View())
    {
      assert Records() == old(Records())[session.sessionId := session.View()];
    }

    method RemoveSession(sessionId: string) returns (removed: bool)
      requires Valid()
      modifies this`sessions, this`runIdToSessionId, this`aborted
      ensures Valid() && View() == Remove(old(View()), sessionId)
      ensures sessions.entries == old(sessions.entries) - {sessionId}
      ensures removed == (sessionId in old(sessions.entries))
    {
      var session := sessions.Get(sessionId);
      if session.None? {
        return false;
      }
      DropRunId(session.value);
      CallAbort(session.value);
      DeleteEntry(sessionId);
      return true;
    }

    method DeleteEntry(sessionId: string)
      requires Valid()
      modifies this`sessions
      ensures Valid() && sessions.entries == old(sessions.entries) - {sessionId}
      ensures View() == old(View()).(sessions := old(View()).sessions.Delete(sessionId))
    {
      ghost var was := Records();
      sessions := sessions.Delete(sessionId);
      assert Records() == was - {sessionId};
    }

    method ReapIdleSessions(nowMs: int)
      requires Valid()
      modifies this`sessions, this`runIdToSessionId, this`aborted
      ensures Valid() && View() == Reap(old(View()), nowMs)
      ensures sessions.entries.Values <= old(sessions.entries.Values)
    {
      var idleBefore := nowMs - idleTtlMs;
      var keys := sessions.order;
      var i := 0;
      while i < |keys|
        invariant 0 <= i <= |keys|
        invariant Valid() && sessions.entries.Values <= old(sessions.entries.Values)
        invariant ReapFrom(View(), keys[i..], nowMs) == Reap(old(View()), nowMs)
      {
        if keys[i] in sessions.entries {
          var session := sessions.entries[keys[i]];
          assert View().sessions.entries[keys[i]] == session.View();
          if !session.IsBusy() && session.lastTouchedAt <= idleBefore {
            var _ := RemoveSession(keys[i]);
          }
        }
        assert keys[i..][1..] == keys[i + 1..];
        i := i + 1;
      }
    }

    method EvictOldestIdleSession() returns (evicted: bool)
      requires Valid()
      modifies this`sessions, this`runIdToSessionId, this`aborted
      ensures Valid() && old(View()).sessions.Valid()
      ensures evicted == Sessions.Evict(old(View())).Some?
      ensures View() == if evicted then Sessions.Evict(old(View())).value else old(View())
      ensures sessions.entries.Values <= old(sessions.entries.Values)
    {
      assert View().sessions.Valid();
      var oldestSessionId: Option<string> := None;
      var i := 0;
      while i < |sessions.order|
        invariant 0 <= i <= |sessions.order|
        invariant oldestSessionId.Some? ==> oldestSessionId.value in sessions.entries
        invariant OldestIdle(View(), sessions.order[i..], oldestSessionId) == Oldest(View())
      {
        assert sessions.order[i] in sessions.order;
        var session := sessions.entries[sessions.order[i]];
        assert View().sessions.entries[sessions.order[i]] == session.View();
        assert oldestSessionId.Some? ==>
            View().sessions.entries[oldestSessionId.value] == sessions.entries[oldestSessionId.value].View();
        assert sessions.order[i..][1..] == sessions.order[i + 1..];
        if !session.IsBusy()
           && (oldestSessionId.None? || session.lastTouchedAt < sessions.entries[oldestSessionId.value].lastTouchedAt) {
          oldestSessionId := Some(sessions.order[i]);
        }
        i := i + 1;
      }
      if oldestSessionId.None? || oldestSessionId.value == "" {
        return false;
      }
      evicted := RemoveSession(oldestSessionId.value);
    }

    method InsertSession(sessionId: string, sessionKey: string, cwd: string, nowMs: int) returns (session: AcpSession)
      requires Valid()
      modifies this`sessions
      ensures Valid() && fresh(session) && View() == Insert(old(View()), sessionId, sessionKey, cwd, nowMs)
      ensures sessions.Get(sessionId) == Some(session)
    {
      session := new AcpSession(sessionId, sessionKey, cwd, nowMs);
      SetEntry(session);
    }

    method SetEntry(session: AcpSession)
      requires Valid()
      modifies this`sessions
      ensures Valid() && sessions == old(sessions).Set(session.sessionId, session)
      ensures View() == old(View()).(sessions := old(View()).sessions.Set(session.sessionId, session.View()))
    {
      ghost var was := Records();
      sessions := sessions.Set(session.sessionId, session);
      assert Records() == was[session.sessionId := session.View()];
    }

    /** The session is there already: it gets the new key and directory, and is touched. */
    method RefreshSession(sessionId: string, sessionKey: string, cwd: string, nowMs: int)
      requires Valid() && sessionId in sessions.entries
      modifies sessions.entries[sessionId]
      ensures Valid() && View() == Update(old(View()), sessionId, sessionKey, cwd, nowMs)
    {
      var session := sessions.entries[sessionId];
      session.sessionKey := sessionKey;
      session.cwd := cwd;
      session.lastTouchedAt := nowMs;
      Rewritten(session);
    }

    /** `None` stands for the error thrown when the limit is reached. */
    method CreateSession(sessionId: string, sessionKey: string, cwd: string, nowMs: int) returns (r: Option<AcpSession>)
      requires Valid()
      modifies this`sessions, this`runIdToSessionId, this`aborted, sessions.entries.Values
      ensures Valid() && old(View()).sessions.Valid()
      ensures (View(), r.Some?) == Create(old(View()), sessionId, sessionKey, cwd, nowMs)
      ensures r.Some? ==> sessions.Get(sessionId) == r
    {
      hide Reap, Evict, Insert, Update;
      assert View().sessions.Valid();
      if sessionId in sessions.entries {
        RefreshSession(sessionId, sessionKey, cwd, nowMs);
        return Some(sessions.entries[sessionId]);
      }
      ReapIdleSessions(nowMs);
      if sessions.Size() >= maxSessions {
        var evicted := EvictOldestIdleSession();
        if !evicted {
          return None;
        }
      }
      var inserted := InsertSession(sessionId, sessionKey, cwd, nowMs);
      return Some(inserted);
    }

    method GetSession(sessionId: string, nowMs: int) returns (r: Option<AcpSession>)
      requires Valid()
      modifies sessions.entries.Values
      ensures Valid() && View() == TouchIfThere(old(View()), sessionId, nowMs)
      ensures r == old(sessions).Get(sessionId)
    {
      r := sessions.Get(sessionId);
      if r.Some? {
        r.value.lastTouchedAt := nowMs;
        Rewritten(r.value);
      }
    }

    method GetSessionByRunId(runId: string, nowMs: int) returns (r: Option<AcpSession>)
      requires Valid()
      modifies sessions.entries.Values
      ensures Valid() && View() == TouchByRun(old(View()), runId, nowMs)
      ensures r == if runId in runIdToSessionId && runIdToSessionId[runId] != ""
                   then old(sessions).Get(runIdToSessionId[runId]) else None
    {
      if runId !in runIdToSessionId || runIdToSessionId[runId] == "" {
        return None;
      }
      r := GetSession(runIdToSessionId[runId], nowMs);
    }

    method SetActiveRun(sessionId: string, runId: string, abortController: nat, nowMs: int)
      requires Valid()
      modifies this`runIdToSessionId, sessions.entries.Values
      ensures Valid() && View() == SetActive(old(View()), sessionId, runId, abortController, nowMs)
    {
      if sessionId !in sessions.entries {
        return;
      }
      var session := sessions.entries[sessionId];
      session.activeRunId := Some(runId);
      session.abortController := Some(abortController);
      runIdToSessionId := runIdToSessionId[runId := sessionId];
      session.lastTouchedAt := nowMs;
      Rewritten(session);
    }

    method ClearActiveRun(sessionId: string, nowMs: int)
      requires Valid()
      modifies this`runIdToSessionId, sessions.entries.Values
      ensures Valid() && View() == ClearActive(old(View()), sessionId, nowMs)
    {
      if sessionId !in sessions.entries {
        return;
      }
      var session := sessions.entries[sessionId];
      DropRunId(session);
      session.activeRunId := None;
      session.abortController := None;
      session.lastTouchedAt := nowMs;
      Rewritten(session);
    }

    method CancelActiveRun(sessionId: string, nowMs: int) returns (cancelled: bool)
      requires Valid()
      modifies this`runIdToSessionId, this`aborted, sessions.entries.Values
      ensures Valid() && View() == CancelActive(old(View()), sessionId, nowMs)
      ensures cancelled == (sessionId in sessions.entries
                            && old(View()).sessions.entries[sessionId].abortController.Some?)
    {
      if sessionId !in sessions.entries || sessions.entries[sessionId].abortController.None? {
        return false;
      }
      var session := sessions.entries[sessionId];
      DropRunId(session);
      CallAbort(session);
      session.abortController := None;
      session.activeRunId := None;
      session.lastTouchedAt := nowMs;
      Rewritten(session);
      return true;
    }
  }
}
