/** The in-memory session table of the ACP bridge (src/acp/session.ts): an idle-time
    and size bounded map of sessions with a reverse index from run to session. */
module Sessions {
  import opened Collections

  /** A session's record. Abort controllers are told apart by a number. */
  datatype Session = Session(
    sessionKey: string,
    cwd: string,
    createdAt: int,
    lastTouchedAt: int,
    abortController: Option<nat>,
    activeRunId: Option<string>)

  /** `aborted` are the controllers whose `abort` was called. */
  datatype Store = Store(
    sessions: OrderedMap<string, Session>,
    runIds: map<string, string>,
    aborted: set<nat>,
    maxSessions: nat,
    idleTtlMs: nat)

  /** A run id counts only if it is there and not the empty string. */
  predicate HasRun(s: Session)
  {
    s.activeRunId.Some? && s.activeRunId.value != ""
  }

  predicate Busy(s: Session)
  {
    HasRun(s) || s.abortController.Some?
  }

  function Touch(st: Store, sessionId: string, now: int): Store
    requires sessionId in st.sessions.entries
  {
    st.(sessions := st.sessions.Set(sessionId, st.sessions.entries[sessionId].(lastTouchedAt := now)))
  }

  function Abort(st: Store, s: Session): Store
  {
    if s.abortController.Some? then st.(aborted := st.aborted + {s.abortController.value}) else st
  }

  function Unindex(st: Store, s: Session): Store
  {
    if HasRun(s) then st.(runIds := st.runIds - {s.activeRunId.value}) else st
  }

  function Remove(st: Store, sessionId: string): Store
  {
    match st.sessions.Get(sessionId)
    case None => st
    case Some(s) => Abort(Unindex(st, s), s).(sessions := st.sessions.Delete(sessionId))
  }

  // ----- making room -----

  predicate Reapable(s: Session, now: int, idleTtlMs: nat)
  {
    !Busy(s) && s.lastTouchedAt <= now - idleTtlMs
  }

  function ReapFrom(st: Store, keys: seq<string>, now: int): (later: Store)
    ensures st.sessions.Valid() ==> later.sessions.Valid()
    decreases |keys|
  {
    if keys == [] then st
    else
      var next := if keys[0] in st.sessions.entries && Reapable(st.sessions.entries[keys[0]], now, st.idleTtlMs)
                  then Remove(st, keys[0]) else st;
      ReapFrom(next, keys[1..], now)
  }

  function Reap(st: Store, now: int): Store
  {
    ReapFrom(st, st.sessions.order, now)
  }

  /** The first idle session among `keys` with the least touch time, given the best so far. */
  function OldestIdle(st: Store, keys: seq<string>, best: Option<string>): Option<string>
    requires best.Some? ==> best.value in st.sessions.entries
    requires forall k :: k in keys ==> k in st.sessions.entries
  {
    if keys == [] then best
    else
      var s := st.sessions.entries[keys[0]];
      var older := !Busy(s) && (best.None? || s.lastTouchedAt < st.sessions.entries[best.value].lastTouchedAt);
      OldestIdle(st, keys[1..], if older then Some(keys[0]) else best)
  }

  function Oldest(st: Store): Option<string>
    requires st.sessions.Valid()
  {
    OldestIdle(st, st.sessions.order, None)
  }

  /** `None` when nothing could be evicted. An idle session whose id is the empty
      string counts as nothing found. */
  function Evict(st: Store): Option<Store>
    requires st.sessions.Valid()
  {
    var oldest := Oldest(st);
    if oldest.None? || oldest.value == "" then None else Some(Remove(st, oldest.value))
  }

  // ----- the operations -----

  function Update(st: Store, sessionId: string, sessionKey: string, cwd: string, now: int): Store
    requires sessionId in st.sessions.entries
  {
    var s := st.sessions.entries[sessionId];
    st.(sessions := st.sessions.Set(sessionId, s.(sessionKey := sessionKey, cwd := cwd, lastTouchedAt := now)))
  }

  function Insert(st: Store, sessionId: string, sessionKey: string, cwd: string, now: int): Store
  {
    st.(sessions := st.sessions.Set(sessionId, Session(sessionKey, cwd, now, now, None, None)))
  }

  /** The table after `createSession`, and whether it threw for want of room. */
  function Create(st: Store, sessionId: string, sessionKey: string, cwd: string, now: int): (Store, bool)
    requires st.sessions.Valid()
  {
    if sessionId in st.sessions.entries then (Update(st, sessionId, sessionKey, cwd, now), true)
    else
      var reaped := Reap(st, now);
      if reaped.sessions.Size() < st.maxSessions then (Insert(reaped, sessionId, sessionKey, cwd, now), true)
      else match Evict(reaped)
        case None => (reaped, false)
        case Some(evicted) => (Insert(evicted, sessionId, sessionKey, cwd, now), true)
  }

  function SetActive(st: Store, sessionId: string, runId: string, controller: nat, now: int): Store
  {
    match st.sessions.Get(sessionId)
    case None => st
    case Some(s) =>
      st.(sessions := st.sessions.Set(sessionId,
            s.(activeRunId := Some(runId), abortController := Some(controller), lastTouchedAt := now)),
          runIds := st.runIds[runId := sessionId])
  }

  function ClearActive(st: Store, sessionId: string, now: int): Store
  {
    match st.sessions.Get(sessionId)
    case None => st
    case Some(s) =>
      Unindex(st, s).(sessions := st.sessions.Set(sessionId,
        s.(activeRunId := None, abortController := None, lastTouchedAt := now)))
  }

  function CancelActive(st: Store, sessionId: string, now: int): Store
  {
    match st.sessions.Get(sessionId)
    case None => st
    case Some(s) =>
      if s.abortController.None? then st
      else Abort(Unindex(st, s), s).(sessions := st.sessions.Set(sessionId,
             s.(activeRunId := None, abortController := None, lastTouchedAt := now)))
  }

  function TouchIfThere(st: Store, sessionId: string, now: int): Store
  {
    if sessionId in st.sessions.entries then Touch(st, sessionId, now) else st
  }

  function TouchByRun(st: Store, runId: string, now: int): Store
  {
    if runId in st.runIds && st.runIds[runId] != "" then TouchIfThere(st, st.runIds[runId], now) else st
  }

  datatype Op =
    | CreateSession(sessionId: string, sessionKey: string, cwd: string)
    | GetSession(sessionId: string)
    | GetSessionByRun(runId: string)
    | SetActiveRun(sessionId: string, runId: string, controller: nat)
    | ClearActiveRun(sessionId: string)
    | CancelActiveRun(sessionId: string)

  function Apply(st: Store, op: Op, now: int): Store
    requires st.sessions.Valid()
  {
    match op
    case CreateSession(sessionId, sessionKey, cwd) => Create(st, sessionId, sessionKey, cwd, now).0
    case GetSession(sessionId) => TouchIfThere(st, sessionId, now)
    case GetSessionByRun(runId) => TouchByRun(st, runId, now)
    case SetActiveRun(sessionId, runId, controller) => SetActive(st, sessionId, runId, controller, now)
    case ClearActiveRun(sessionId) => ClearActive(st, sessionId, now)
    case CancelActiveRun(sessionId) => CancelActive(st, sessionId, now)
  }

  // ----- what the table keeps -----

  /** The run index is exactly the inverse of the sessions' active runs. */
  ghost predicate IndexIsInverse(st: Store)
  {
    && (forall sid :: sid in st.sessions.entries && st.sessions.entries[sid].activeRunId.Some? ==>
          var run := st.sessions.entries[sid].activeRunId.value;
          run != "" && run in st.runIds && st.runIds[run] == sid)
    && (forall run :: run in st.runIds ==>
          st.runIds[run] in st.sessions.entries && st.sessions.entries[st.runIds[run]].activeRunId == Some(run))
  }

  ghost predicate Inv(st: Store)
  {
    && st.sessions.Valid()
    && 1 <= st.maxSessions
    && st.sessions.Size() <= st.maxSessions
    && IndexIsInverse(st)
    && (forall sid :: sid in st.sessions.entries ==>
          (st.sessions.entries[sid].activeRunId.Some? <==> st.sessions.entries[sid].abortController.Some?))
  }

  /** A caller starts a run only on a session without one, under a fresh run id. */
  predicate Disciplined(st: Store, op: Op)
  {
    op.SetActiveRun? && op.sessionId in st.sessions.entries ==>
      && st.sessions.entries[op.sessionId].activeRunId.None?
      && op.runId != "" && op.runId !in st.runIds
  }

  /** Replacing or adding one session's record keeps the size within one. */
  lemma SetSize(st: Store, sessionId: string, s: Session)
    requires st.sessions.Valid()
    ensures st.sessions.Set(sessionId, s).Size() ==
            if sessionId in st.sessions.entries then st.sessions.Size() else st.sessions.Size() + 1
  {
  }

  lemma WithoutShrinks(s: seq<string>, k: string)
    requires Distinct(s) && k in s
    ensures |Without(s, k)| == |s| - 1
  {
    if s[0] == k {
      WithoutAbsent(s[1..], k);
    } else {
      WithoutShrinks(s[1..], k);
    }
  }

  lemma WithoutAbsent(s: seq<string>, k: string)
    requires k !in s
    ensures Without(s, k) == s
  {
  }

  // ----- reaping -----

  /** Reaping drops exactly the idle sessions not touched for the idle time; every other
      session is there unchanged, and neither the index nor a controller is touched. */
  lemma {:induction false} ReapFromIsFilter(st: Store, keys: seq<string>, now: int)
    requires st.sessions.Valid() && Distinct(keys)
    ensures var after := ReapFrom(st, keys, now);
      && after.sessions.Valid()
      && after == st.(sessions := after.sessions)
      && after.sessions.Size() <= st.sessions.Size()
      && (forall sid :: sid in after.sessions.entries <==>
            sid in st.sessions.entries
            && !(sid in keys && Reapable(st.sessions.entries[sid], now, st.idleTtlMs)))
      && (forall sid :: sid in after.sessions.entries ==> after.sessions.entries[sid] == st.sessions.entries[sid])
      && (after.sessions.Size() == st.sessions.Size() ==> after == st)
    decreases |keys|
  {
    if keys != [] {
      var k := keys[0];
      var next := if k in st.sessions.entries && Reapable(st.sessions.entries[k], now, st.idleTtlMs)
                  then Remove(st, k) else st;
      if next != st {
        assert k in st.sessions.order;
        WithoutShrinks(st.sessions.order, k);
      }
      ReapFromIsFilter(next, keys[1..], now);
      assert forall sid :: sid in keys <==> sid == k || sid in keys[1..];
    }
  }

  lemma ReapRemovesExactlyTheStaleIdle(st: Store, now: int)
    requires st.sessions.Valid()
    ensures var after := Reap(st, now);
      && after == st.(sessions := after.sessions) && after.sessions.Valid()
      && (forall sid :: sid in after.sessions.entries <==>
            sid in st.sessions.entries && !Reapable(st.sessions.entries[sid], now, st.idleTtlMs))
      && (forall sid :: sid in after.sessions.entries ==> after.sessions.entries[sid] == st.sessions.entries[sid])
      && after.sessions.Size() <= st.sessions.Size()
      && (after.sessions.Size() == st.sessions.Size() ==> after == st)
  {
    ReapFromIsFilter(st, st.sessions.order, now);
  }

  // ----- evicting -----

  /** `k` is an idle session and no idle session among `keys` was touched before it. */
  ghost predicate LeastTouchedIdle(st: Store, k: string, keys: seq<string>)
  {
    && k in st.sessions.entries && !Busy(st.sessions.entries[k])
    && (forall j :: j in keys && j in st.sessions.entries && !Busy(st.sessions.entries[j]) ==>
          st.sessions.entries[k].lastTouchedAt <= st.sessions.entries[j].lastTouchedAt)
  }

  lemma {:induction false} OldestIdleIsLeast(st: Store, seen: seq<string>, keys: seq<string>, best: Option<string>)
    requires best.Some? ==> LeastTouchedIdle(st, best.value, seen)
    requires best.None? ==> forall j :: j in seen && j in st.sessions.entries ==> Busy(st.sessions.entries[j])
    requires forall k :: k in keys ==> k in st.sessions.entries
    ensures var r := OldestIdle(st, keys, best);
      && (r.Some? ==> LeastTouchedIdle(st, r.value, seen + keys))
      && (r.None? ==> forall j :: j in seen + keys && j in st.sessions.entries ==> Busy(st.sessions.entries[j]))
    decreases |keys|
  {
    if keys == [] {
      assert seen + keys == seen;
    } else {
      var s := st.sessions.entries[keys[0]];
      var older := !Busy(s) && (best.None? || s.lastTouchedAt < st.sessions.entries[best.value].lastTouchedAt);
      OldestIdleIsLeast(st, seen + [keys[0]], keys[1..], if older then Some(keys[0]) else best);
      assert seen + [keys[0]] + keys[1..] == seen + keys;
    }
  }

  /** Eviction picks a least recently touched idle session, if there is an idle one. */
  lemma EvictionPicksLeastTouchedIdle(st: Store)
    requires st.sessions.Valid()
    ensures Oldest(st).Some? ==> LeastTouchedIdle(st, Oldest(st).value, st.sessions.order)
    ensures Oldest(st).None? <==> forall sid :: sid in st.sessions.entries ==> Busy(st.sessions.entries[sid])
  {
    OldestIdleIsLeast(st, [], st.sessions.order, None);
    assert [] + st.sessions.order == st.sessions.order;
  }

  // ----- creating -----

  /** `createSession` throws exactly if the session is new, the table is full of busy
      sessions, or full and its least recently touched idle session has the empty id. */
  lemma CreationFailsExactly(st: Store, sessionId: string, sessionKey: string, cwd: string, now: int)
    requires Inv(st)
    ensures !Create(st, sessionId, sessionKey, cwd, now).1 <==>
      && sessionId !in st.sessions.entries
      && st.sessions.Size() == st.maxSessions
      && (forall sid :: sid in st.sessions.entries ==> !Reapable(st.sessions.entries[sid], now, st.idleTtlMs))
      && (Oldest(st).None? || Oldest(st) == Some(""))
  {
    ReapRemovesExactlyTheStaleIdle(st, now);
    var reaped := Reap(st, now);
    if reaped.sessions.Size() == st.sessions.Size() {
      assert reaped == st;
    } else if forall sid :: sid in st.sessions.entries ==> !Reapable(st.sessions.entries[sid], now, st.idleTtlMs) {
      assert reaped.sessions.entries == st.sessions.entries;
      SizeIsCardinality(st.sessions);
      SizeIsCardinality(reaped.sessions);
    }
  }

  /** So if no session has the empty id, creation fails only when every session is busy. */
  lemma CreationFailsOnlyIfAllBusy(st: Store, sessionId: string, sessionKey: string, cwd: string, now: int)
    requires Inv(st) && "" !in st.sessions.entries
    ensures !Create(st, sessionId, sessionKey, cwd, now).1 <==>
      && sessionId !in st.sessions.entries
      && st.sessions.Size() == st.maxSessions
      && (forall sid :: sid in st.sessions.entries ==> Busy(st.sessions.entries[sid]))
  {
    CreationFailsExactly(st, sessionId, sessionKey, cwd, now);
    EvictionPicksLeastTouchedIdle(st);
  }

  /** The empty id does matter: a full table whose only session is idle under the empty
      id refuses a new session, although an idle one is there to evict. */
  lemma EmptyIdBlocksEviction()
    ensures var idle := Session("k", "/", 0, 0, None, None);
      var st := Store(OrderedMap(map["" := idle], [""]), map[], {}, 1, 1000);
      Inv(st) && !Busy(idle) && !Create(st, "s", "k", "/", 10).1
  {
    var idle := Session("k", "/", 0, 0, None, None);
    var st := Store(OrderedMap(map["" := idle], [""]), map[], {}, 1, 1000);
    assert st.sessions.order[0] in st.sessions.entries && st.sessions.order[1..] == [];
    EvictionPicksLeastTouchedIdle(st);
    CreationFailsExactly(st, "s", "k", "/", 10);
  }

  /** Creation never drops a busy session. Of the idle ones that are not stale it drops
      at most one, only when the table is full, and then a least recently touched one. */
  lemma CreationDropsOnlyIdle(st: Store, sessionId: string, sessionKey: string, cwd: string, now: int, sid: string)
    requires Inv(st) && sid in st.sessions.entries && sid != sessionId
    ensures var after := Create(st, sessionId, sessionKey, cwd, now).0;
      && (sid in after.sessions.entries ==> after.sessions.entries[sid] == st.sessions.entries[sid])
      && (Busy(st.sessions.entries[sid]) ==> sid in after.sessions.entries)
      && (sid !in after.sessions.entries && !Reapable(st.sessions.entries[sid], now, st.idleTtlMs) ==>
            st.sessions.Size() == st.maxSessions && LeastTouchedIdle(st, sid, st.sessions.order))
  {
    hide Reap, Reapable, Busy, Evict, LeastTouchedIdle;
    ReapRemovesExactlyTheStaleIdle(st, now);
    var reaped := Reap(st, now);
    StaleIsIdle(st, sid, now);
    EvictionDropsOne(reaped, sid);
    if reaped.sessions.Size() == st.sessions.Size() {
      assert reaped == st;
    }
  }

  lemma StaleIsIdle(st: Store, sid: string, now: int)
    requires sid in st.sessions.entries
    ensures Reapable(st.sessions.entries[sid], now, st.idleTtlMs) ==> !Busy(st.sessions.entries[sid])
  {
  }

  /** Eviction takes at most a least recently touched idle session. */
  lemma EvictionDropsOne(st: Store, sid: string)
    requires st.sessions.Valid()
    ensures Evict(st).Some? && sid in st.sessions.entries ==>
      var after := Evict(st).value;
      && (sid in after.sessions.entries ==> after.sessions.entries[sid] == st.sessions.entries[sid])
      && (sid !in after.sessions.entries
          ==> LeastTouchedIdle(st, sid, st.sessions.order) && !Busy(st.sessions.entries[sid]))
  {
    EvictionPicksLeastTouchedIdle(st);
  }

  /** The session asked for is there afterwards, touched now, with the new key and
      directory, unless creation failed. */
  lemma CreationCreates(st: Store, sessionId: string, sessionKey: string, cwd: string, now: int)
    requires Inv(st)
    ensures var (after, ok) := Create(st, sessionId, sessionKey, cwd, now);
      ok <==> && sessionId in after.sessions.entries
              && after.sessions.entries[sessionId].sessionKey == sessionKey
              && after.sessions.entries[sessionId].cwd == cwd
              && after.sessions.entries[sessionId].lastTouchedAt == now
  {
    ReapRemovesExactlyTheStaleIdle(st, now);
  }

  lemma RemoveIdleKeeps(st: Store, sessionId: string)
    requires Inv(st) && sessionId in st.sessions.entries && !Busy(st.sessions.entries[sessionId])
    ensures Inv(Remove(st, sessionId)) && Remove(st, sessionId).sessions.Size() == st.sessions.Size() - 1
    ensures Remove(st, sessionId) == st.(sessions := st.sessions.Delete(sessionId))
  {
    assert sessionId in st.sessions.order;
    WithoutShrinks(st.sessions.order, sessionId);
  }

  lemma InsertKeeps(st: Store, sessionId: string, sessionKey: string, cwd: string, now: int)
    requires Inv(st) && sessionId !in st.sessions.entries && st.sessions.Size() < st.maxSessions
    ensures Inv(Insert(st, sessionId, sessionKey, cwd, now))
  {
    SetSize(st, sessionId, Session(sessionKey, cwd, now, now, None, None));
  }

  /** Rewriting a record without changing its run and controller keeps everything. */
  lemma RewriteKeeps(st: Store, sessionId: string, s: Session)
    requires Inv(st) && sessionId in st.sessions.entries
    requires s.activeRunId == st.sessions.entries[sessionId].activeRunId
    requires s.abortController == st.sessions.entries[sessionId].abortController
    ensures Inv(st.(sessions := st.sessions.Set(sessionId, s)))
  {
    SetSize(st, sessionId, s);
  }

  lemma ReapKeeps(st: Store, now: int)
    requires Inv(st)
    ensures Inv(Reap(st, now))
  {
    ReapRemovesExactlyTheStaleIdle(st, now);
  }

  lemma CreateKeepsInv(st: Store, sessionId: string, sessionKey: string, cwd: string, now: int)
    requires Inv(st)
    ensures Inv(Create(st, sessionId, sessionKey, cwd, now).0)
  {
    if sessionId in st.sessions.entries {
      RewriteKeeps(st, sessionId, Update(st, sessionId, sessionKey, cwd, now).sessions.entries[sessionId]);
    } else {
      ReapRemovesExactlyTheStaleIdle(st, now);
      ReapKeeps(st, now);
      var reaped := Reap(st, now);
      EvictionPicksLeastTouchedIdle(reaped);
      if reaped.sessions.Size() < st.maxSessions {
        InsertKeeps(reaped, sessionId, sessionKey, cwd, now);
      } else if Evict(reaped).Some? {
        RemoveIdleKeeps(reaped, Oldest(reaped).value);
        InsertKeeps(Evict(reaped).value, sessionId, sessionKey, cwd, now);
      }
    }
  }

  /** Dropping a session's run together with its index entry keeps the index exact. */
  lemma ClearingKeeps(st: Store, sessionId: string, now: int)
    requires Inv(st) && sessionId in st.sessions.entries
    ensures Inv(ClearActive(st, sessionId, now))
  {
    var s := st.sessions.entries[sessionId];
    SetSize(st, sessionId, s.(activeRunId := None, abortController := None, lastTouchedAt := now));
  }

  lemma CancellingKeeps(st: Store, sessionId: string, now: int)
    requires Inv(st)
    ensures Inv(CancelActive(st, sessionId, now))
    ensures sessionId in st.sessions.entries
            ==> CancelActive(st, sessionId, now).sessions.entries[sessionId].activeRunId.None?
    ensures CancelActive(st, sessionId, now).runIds.Keys <= st.runIds.Keys
  {
    if sessionId in st.sessions.entries && st.sessions.entries[sessionId].abortController.Some? {
      ClearingKeeps(st, sessionId, now);
      assert CancelActive(st, sessionId, now)
          == ClearActive(st, sessionId, now).(aborted := CancelActive(st, sessionId, now).aborted);
    }
  }

  lemma SettingKeeps(st: Store, sessionId: string, runId: string, controller: nat, now: int)
    requires Inv(st) && Disciplined(st, SetActiveRun(sessionId, runId, controller))
    ensures Inv(SetActive(st, sessionId, runId, controller, now))
  {
    SetActiveKeepsIndexExactly(st, sessionId, runId, controller, now);
    if sessionId in st.sessions.entries {
      SetSize(st, sessionId, SetActive(st, sessionId, runId, controller, now).sessions.entries[sessionId]);
    }
  }

  /** Starting a run keeps the index exact if and only if the session is unknown, or the
      run id is not empty, no other session has it, and the session had no other run. */
  lemma SetActiveKeepsIndexExactly(st: Store, sessionId: string, runId: string, controller: nat, now: int)
    requires Inv(st)
    ensures IndexIsInverse(SetActive(st, sessionId, runId, controller, now)) <==>
      || sessionId !in st.sessions.entries
      || (&& runId != ""
          && (runId in st.runIds ==> st.runIds[runId] == sessionId)
          && (st.sessions.entries[sessionId].activeRunId in {None, Some(runId)}))
  {
    var after := SetActive(st, sessionId, runId, controller, now);
    if sessionId in st.sessions.entries {
      assert after.sessions.entries[sessionId].activeRunId == Some(runId);
      var had := st.sessions.entries[sessionId].activeRunId;
      if had.Some? && had.value != runId {
        assert had.value in after.runIds && after.runIds[had.value] == sessionId;
      }
      if runId in st.runIds && st.runIds[runId] != sessionId {
        assert after.sessions.entries[st.runIds[runId]].activeRunId == Some(runId);
      }
    }
  }

  lemma OpKeepsInv(st: Store, op: Op, now: int)
    requires Inv(st) && Disciplined(st, op)
    ensures Inv(Apply(st, op, now))
  {
    match op
    case CreateSession(sessionId, sessionKey, cwd) => CreateKeepsInv(st, sessionId, sessionKey, cwd, now);
    case SetActiveRun(sessionId, runId, controller) => SettingKeeps(st, sessionId, runId, controller, now);
    case ClearActiveRun(sessionId) =>
      if sessionId in st.sessions.entries {
        ClearingKeeps(st, sessionId, now);
      }
    case CancelActiveRun(sessionId) => CancellingKeeps(st, sessionId, now);
    case GetSession(sessionId) => TouchKeeps(st, sessionId, now);
    case GetSessionByRun(runId) =>
      if runId in st.runIds {
        TouchKeeps(st, st.runIds[runId], now);
      }
  }

  lemma TouchKeeps(st: Store, sessionId: string, now: int)
    requires Inv(st)
    ensures Inv(TouchIfThere(st, sessionId, now))
  {
    if sessionId in st.sessions.entries {
      RewriteKeeps(st, sessionId, st.sessions.entries[sessionId].(lastTouchedAt := now));
    }
  }

  /** The way `prompt` starts a run, cancelling first whatever the session has active,
      is disciplined for any fresh run id. */
  lemma PromptIsDisciplined(st: Store, sessionId: string, runId: string, controller: nat, now: int)
    requires Inv(st) && runId != "" && runId !in st.runIds
    ensures Disciplined(CancelActive(st, sessionId, now), SetActiveRun(sessionId, runId, controller))
    ensures Inv(SetActive(CancelActive(st, sessionId, now), sessionId, runId, controller, now))
  {
    CancellingKeeps(st, sessionId, now);
    SettingKeeps(CancelActive(st, sessionId, now), sessionId, runId, controller, now);
  }

  // ----- over whole histories -----

  /** The tables a history of timed calls goes through, all of them disciplined. */
  ghost predicate History(states: seq<Store>, calls: seq<(Op, int)>)
  {
    && |states| == |calls| + 1
    && states[0].sessions == EmptyMap() && states[0].runIds == map[] && states[0].maxSessions >= 1
    && (forall i {:trigger calls[i]} :: 0 <= i < |calls| ==>
          && (states[i].sessions.Valid() ==> states[i + 1] == Apply(states[i], calls[i].0, calls[i].1))
          && Disciplined(states[i], calls[i].0))
  }

  /** Over every disciplined history the index stays the exact inverse of the active
      runs, a session has a controller exactly while it has a run, and the table never
      holds more than its maximum. */
  lemma {:induction false} HistoryKeepsInv(states: seq<Store>, calls: seq<(Op, int)>, i: nat)
    requires History(states, calls) && i < |states|
    ensures Inv(states[i])
    ensures |states[i].sessions.entries| <= states[i].maxSessions
  {
    if i > 0 {
      HistoryKeepsInv(states, calls, i - 1);
      assert Disciplined(states[i - 1], calls[i - 1].0);
      OpKeepsInv(states[i - 1], calls[i - 1].0, calls[i - 1].1);
    }
    SizeIsCardinality(states[i].sessions);
  }
}
