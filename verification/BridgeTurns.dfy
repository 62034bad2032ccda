/** Prompts of a session that take turns are never lost; and runs in which one is. */
module BridgeTurns {
  import opened Collections
  import opened GatewayBridge
  import opened BridgeInvariant
  import opened BridgeProtocol
  import opened BridgeTheorems
  import opened BridgeAccounting
  import opened BridgeAbandonment

  /** Work that can still take the entry of its prompt's session. */
  predicate Active(t: Task) { t.Sending? || t.Streaming? || t.Cancelling? }

  /** A prompt arrives only on a session that has no entry and no such work. */
  ghost predicate TakesTurns(s: System, e: Event)
  {
    e.PromptArrives? ==>
      && e.sessionId !in s.bridge.pending.entries
      && (forall k :: k in s.tasks && Active(s.tasks[k]) && s.tasks[k].run in s.bridge.prompts ==>
            s.bridge.prompts[s.tasks[k].run].sessionId != e.sessionId)
  }

  /** No work is about another prompt of the session of a prompt in the map. */
  ghost predicate NoRivals(s: System)
  {
    forall k, run :: IsPending(s.bridge, run) ==> !IsRival(s, k, run)
  }

  /** Where the active tasks of the next state come from. */
  lemma ActiveOrigin(s: System, e: Event, k: nat)
    requires Inv(s) && Enabled(s, e) && k in Step(s, e).tasks && Active(Step(s, e).tasks[k])
    ensures var run := Step(s, e).tasks[k].run;
      || (k in s.tasks && Active(s.tasks[k]) && s.tasks[k].run == run)
      || IsPending(s.bridge, run)
      || (e.PromptArrives? && run == e.run)
  {
    hide TaskOk, OutagesOk, PendingCarryOutage, TimerOk, SettlementsOk, StartPrompt, Disconnect, BeginFinish,
         StartSweep, AfterWait, AfterSend;
    match e
    case ChatArrives(sessionKey, named, _, _) => FoundIsPending(s.bridge, sessionKey, named);
    case PromptArrives(_, _, _, _) =>
    case CancelArrives(_) =>
    case GatewayDown(_) =>
    case GatewayUp => ArrivalOrigin(s, e, k);
    case TimerFires => ArrivalOrigin(s, e, k);
    case _ => ResumptionOrigin(s, e, k);
  }

  lemma ArrivalOrigin(s: System, e: Event, k: nat)
    requires Inv(s) && Enabled(s, e) && k in Step(s, e).tasks && Active(Step(s, e).tasks[k])
    requires e.GatewayUp? || e.TimerFires?
    ensures k in s.tasks && s.tasks[k] == Step(s, e).tasks[k]
  {
    hide BridgeOk, TaskOk, Entries, EndSweep, NextEligible;
  }

  lemma ResumptionOrigin(s: System, e: Event, k: nat)
    requires Inv(s) && Enabled(s, e) && Resumption(e) && k in Step(s, e).tasks && Active(Step(s, e).tasks[k])
    ensures k in s.tasks && Active(s.tasks[k]) && s.tasks[k].run == Step(s, e).tasks[k].run
  {
    hide BridgeOk, SweepOk, Cleared, EndSweep, NextEligible, AtDeadline;
    assert TaskOk(s.bridge, s.tasks[e.task]);
    if k != e.task && k < s.nextTask {
      ResumptionsLeaveOthers(s, e, e.task, k);
    }
  }

  /** Every prompt was there before, or has just arrived. */
  lemma PromptOrigin(s: System, e: Event, run: string)
    requires Inv(s) && Enabled(s, e) && run in Step(s, e).bridge.prompts
    ensures run in s.bridge.prompts || (e.PromptArrives? && run == e.run)
  {
    if Resumption(e) {
      ResumptionMakesNoPrompt(s, e);
    }
  }

  lemma ArrivalMakesNoRival(s: System, e: Event, k: nat, run: string)
    requires Inv(s) && Enabled(s, e) && e.PromptArrives? && NoRivals(s) && TakesTurns(s, e)
    requires IsPending(Step(s, e).bridge, run)
    ensures !IsRival(Step(s, e), k, run)
  {
    StartPromptKeeps(s.bridge, e.sessionId, e.sessionKey, e.run);
    var after := Step(s, e);
    if IsRival(after, k, run) {
      if run != e.run && k != s.nextTask {
        assert TaskOk(s.bridge, s.tasks[k]);
        assert IsPending(s.bridge, run) && IsRival(s, k, run);
      }
    }
  }

  lemma StepKeepsNoRivals(s: System, e: Event)
    requires Inv(s) && Enabled(s, e) && NoRivals(s) && TakesTurns(s, e)
    ensures NoRivals(Step(s, e))
  {
    StepKeeps(s, e);
    var after := Step(s, e);
    forall k, run | IsPending(after.bridge, run)
      ensures !IsRival(after, k, run)
    {
      if e.PromptArrives? {
        ArrivalMakesNoRival(s, e, k, run);
      } else if k in after.tasks && Active(after.tasks[k]) {
        OldNoRival(s, e, k, run);
      }
    }
  }

  lemma OldNoRival(s: System, e: Event, k: nat, run: string)
    requires Inv(s) && Enabled(s, e) && NoRivals(s) && !e.PromptArrives?
    requires Extends(s.bridge, Step(s, e).bridge) && IsPending(Step(s, e).bridge, run)
    requires k in Step(s, e).tasks && Active(Step(s, e).tasks[k])
    ensures !IsRival(Step(s, e), k, run)
  {
    hide Step, Inv, Enabled;
    var after, was := Step(s, e), IsRival(s, k, run);
    ActiveOrigin(s, e, k);
    PromptOrigin(s, e, run);
    if SameSession(after.bridge, after.tasks[k].run, run) {
      PromptOrigin(s, e, after.tasks[k].run);
    }
  }

  /** Work about an earlier prompt of a session takes a later one's entry only if the
      prompts did not take turns. */
  lemma {:induction false} TurnsKeepNoRivals(trace: seq<System>, events: seq<Event>, i: nat)
    requires IsRun(trace, events) && i < |trace|
    requires forall j :: 0 <= j < i ==> TakesTurns(trace[j], events[j])
    ensures NoRivals(trace[i])
  {
    hide Step, Inv, NoRivals, TakesTurns;
    if i == 0 {
      NobodyAtStart();
    } else {
      TurnsKeepNoRivals(trace, events, i - 1);
      RunStep(trace, events, i - 1);
      StepKeepsNoRivals(trace[i - 1], events[i - 1]);
    }
  }

  lemma NobodyAtStart()
    ensures NoRivals(START)
  {
  }

  lemma TurnTakesNothing(s: System, e: Event, run: string)
    requires NoRivals(s) && TakesTurns(s, e)
    ensures !Takes(s, e, run)
  {
  }

  /** If the prompts of every session take turns, then at every moment of the run every
      prompt is in the map, settled, or held by work that ends by settling it. */
  lemma PromptsThatTakeTurnsAreKept(trace: seq<System>, events: seq<Event>, i: nat, run: string)
    requires IsRun(trace, events) && i < |trace| && run in trace[i].bridge.prompts
    requires forall j :: 0 <= j < i ==> TakesTurns(trace[j], events[j])
    ensures Accounted(trace[i], run)
  {
    hide Step, Inv, NoRivals, TakesTurns, Takes, Accounted;
    NoPromptLost(trace, events, i, run);
    forall j | 0 <= j < i
      ensures !Takes(trace[j], events[j], run)
    {
      TurnsKeepNoRivals(trace, events, j);
      TurnTakesNothing(trace[j], events[j], run);
    }
  }

  // ----- runs that lose a prompt -----

  function OnlyEntry(sessionId: string, run: string): OrderedMap<string, string>
  {
    OrderedMap(map[sessionId := run], [sessionId])
  }

  // a client that waits for each prompt to be settled before it starts the next: prompt "a"
  // is being cancelled when the gateway reports it aborted and it is settled; "b" is started
  // before the abort request for "a" is answered

  const ARRIVE_A := PromptArrives("s", "k", "a", false)
  const ACCEPT_A := SendReturns(0, SendAccepted)
  const CANCEL_A := CancelArrives("s")
  const ABORTED_A := ChatArrives("k", Some("a"), Aborted, false)
  const FINISH_A := FinishReturns(2)
  const ARRIVE_B := PromptArrives("s", "k", "b", false)
  const ACCEPT_B := SendReturns(3, SendAccepted)
  const ANSWER_A := AbortReturns(1)

  const PROMPT_A := Prompt("s", "k", true, None)
  const HOLDS_A := INITIAL.(pending := OnlyEntry("s", "a"), prompts := map["a" := PROMPT_A])
  const EMPTIED := INITIAL.(prompts := map["a" := PROMPT_A])
  const A_SETTLED := EMPTIED.(settlements := [Settlement("a", Resolved(Cancelled), ChatEvent(Some("a")))])
  const HOLDS_B := A_SETTLED.(pending := OnlyEntry("s", "b"))

  const AFTER_ARRIVE_A := System(HOLDS_A.(prompts := map["a" := PROMPT_A.(sendAccepted := false)]),
                                 map[0 := Sending("a", false)], 1)
  const AFTER_ACCEPT_A := System(HOLDS_A, map[], 1)
  const AFTER_CANCEL_A := System(HOLDS_A, map[1 := Cancelling("a")], 2)
  const AFTER_ABORTED_A :=
    System(EMPTIED, map[1 := Cancelling("a"), 2 := Finishing("a", Cancelled, ChatEvent(Some("a")))], 3)
  const AFTER_FINISH_A := System(A_SETTLED, map[1 := Cancelling("a")], 3)
  const AFTER_ARRIVE_B := System(HOLDS_B.(prompts := map["a" := PROMPT_A, "b" := PROMPT_A.(sendAccepted := false)]),
                                 map[1 := Cancelling("a"), 3 := Sending("b", false)], 4)
  const AFTER_ACCEPT_B := System(HOLDS_B.(prompts := map["a" := PROMPT_A, "b" := PROMPT_A]),
                                 map[1 := Cancelling("a")], 4)

  lemma ArriveA()
    requires Inv(START)
    ensures Enabled(START, ARRIVE_A) && Step(START, ARRIVE_A) == AFTER_ARRIVE_A
  {
    hide BridgeOk, TaskOk;
    assert Step(START, ARRIVE_A).tasks == AFTER_ARRIVE_A.tasks;
    assert Step(START, ARRIVE_A).bridge.pending == OnlyEntry("s", "a");
  }

  lemma AcceptA()
    requires Inv(AFTER_ARRIVE_A)
    ensures Enabled(AFTER_ARRIVE_A, ACCEPT_A) && Step(AFTER_ARRIVE_A, ACCEPT_A) == AFTER_ACCEPT_A
  {
    hide BridgeOk, TaskOk;
    assert Step(AFTER_ARRIVE_A, ACCEPT_A).tasks == map[];
    assert Step(AFTER_ARRIVE_A, ACCEPT_A).bridge.prompts == HOLDS_A.prompts;
  }

  lemma CancelA()
    requires Inv(AFTER_ACCEPT_A)
    ensures Enabled(AFTER_ACCEPT_A, CANCEL_A) && Step(AFTER_ACCEPT_A, CANCEL_A) == AFTER_CANCEL_A
  {
    hide BridgeOk, TaskOk;
    assert Step(AFTER_ACCEPT_A, CANCEL_A).tasks == AFTER_CANCEL_A.tasks;
  }

  lemma FoundA()
    ensures FindPending(HOLDS_A, "k", Some("a")) == Some("a")
  {
  }

  lemma AbortedA()
    requires Inv(AFTER_CANCEL_A)
    ensures Enabled(AFTER_CANCEL_A, ABORTED_A) && Step(AFTER_CANCEL_A, ABORTED_A) == AFTER_ABORTED_A
  {
    hide BridgeOk, TaskOk, FindPending;
    FoundA();
    var s := Step(AFTER_CANCEL_A, ABORTED_A);
    assert s.tasks == AFTER_ABORTED_A.tasks;
    assert s.bridge.pending.order == [] && s.bridge.pending.entries == map[];
  }

  lemma FinishA()
    requires Inv(AFTER_ABORTED_A)
    ensures Enabled(AFTER_ABORTED_A, FINISH_A) && Step(AFTER_ABORTED_A, FINISH_A) == AFTER_FINISH_A
  {
    hide BridgeOk, TaskOk;
    assert Step(AFTER_ABORTED_A, FINISH_A).tasks == AFTER_FINISH_A.tasks;
  }

  lemma ArriveB()
    requires Inv(AFTER_FINISH_A)
    ensures Enabled(AFTER_FINISH_A, ARRIVE_B) && Step(AFTER_FINISH_A, ARRIVE_B) == AFTER_ARRIVE_B
  {
    hide BridgeOk, TaskOk;
    var s := Step(AFTER_FINISH_A, ARRIVE_B);
    assert s.tasks == AFTER_ARRIVE_B.tasks;
    assert s.bridge.pending == OnlyEntry("s", "b") && s.bridge.prompts == AFTER_ARRIVE_B.bridge.prompts;
  }

  lemma AcceptB()
    requires Inv(AFTER_ARRIVE_B)
    ensures Enabled(AFTER_ARRIVE_B, ACCEPT_B) && Step(AFTER_ARRIVE_B, ACCEPT_B) == AFTER_ACCEPT_B
  {
    hide BridgeOk, TaskOk;
    var s := Step(AFTER_ARRIVE_B, ACCEPT_B);
    assert s.tasks == AFTER_ACCEPT_B.tasks && s.bridge.prompts == AFTER_ACCEPT_B.bridge.prompts;
  }

  lemma ReachesAcceptA()
    ensures Reachable(AFTER_ACCEPT_A) && Inv(AFTER_ACCEPT_A)
  {
    hide Reachable, Inv, Step, Enabled;
    StartIsReachable();
    ReachableInv(START);
    ArriveA();
    ReachableStep(START, ARRIVE_A);
    AcceptA();
    ReachableStep(AFTER_ARRIVE_A, ACCEPT_A);
  }

  lemma ReachesAcceptB()
    ensures Reachable(AFTER_ACCEPT_B) && Inv(AFTER_ACCEPT_B)
  {
    hide Reachable, Inv, Step, Enabled;
    ReachesAcceptA();
    CancelA();
    ReachableStep(AFTER_ACCEPT_A, CANCEL_A);
    AbortedA();
    ReachableStep(AFTER_CANCEL_A, ABORTED_A);
    FinishA();
    ReachableStep(AFTER_ABORTED_A, FINISH_A);
    ArriveB();
    ReachableStep(AFTER_FINISH_A, ARRIVE_B);
    AcceptB();
    ReachableStep(AFTER_ARRIVE_B, ACCEPT_B);
  }

  /** A second prompt on the session takes the entry of "a", which is then abandoned. */
  lemma SupersededExample()
    ensures var s := AFTER_ACCEPT_A;
      && Reachable(s) && Inv(s) && Enabled(s, ARRIVE_B) && NobodyRefers(s, "a") && IsPending(s.bridge, "a")
      && Takes(s, ARRIVE_B, "a")
      && Reachable(Step(s, ARRIVE_B)) && Abandoned(Step(s, ARRIVE_B), "a") && !Settled(Step(s, ARRIVE_B).bridge, "a")
  {
    hide Reachable, BridgeOk, TaskOk;
    var s := AFTER_ACCEPT_A;
    ReachesAcceptA();
    ReachableStep(s, ARRIVE_B);
    TakingAbandons(s, ARRIVE_B, "a");
    assert Step(s, ARRIVE_B).bridge.settlements == [];
  }

  /** A client that waits for each prompt to be settled before it starts the next can lose
      one too: the late answer to the abort of "a" removes the entry of "b". */
  lemma LateAbortExample()
    ensures var s := AFTER_ACCEPT_B;
      && Reachable(s) && Inv(s) && Enabled(s, ANSWER_A) && Settled(AFTER_FINISH_A.bridge, "a")
      && IsPending(s.bridge, "b") && Takes(s, ANSWER_A, "b")
      && Reachable(Step(s, ANSWER_A)) && Abandoned(Step(s, ANSWER_A), "b") && !Settled(Step(s, ANSWER_A).bridge, "b")
  {
    hide Reachable, BridgeOk, TaskOk, Takes, Abandoned;
    var s := AFTER_ACCEPT_B;
    ReachesAcceptB();
    assert A_SETTLED.settlements[0].run == "a";
    ReachableStep(s, ANSWER_A);
    LateAbortTakes();
    TakingAbandons(s, ANSWER_A, "b");
    assert Step(s, ANSWER_A).bridge.settlements
           == s.bridge.settlements + [Settlement("a", Resolved(Cancelled), CancelRequest)];
  }

  lemma LateAbortTakes()
    ensures Takes(AFTER_ACCEPT_B, ANSWER_A, "b") && NobodyRefers(AFTER_ACCEPT_B, "b")
  {
  }
}
