/** Which notices other than progress a relay gives, and when, over every run. */
module RelaySignals {
  import opened Collections
  import opened Text
  import opened RelayText
  import opened RelayProtocol
  import opened RelayTold

  // ----- in terms of the events -----

  /** A poll after the child has said nothing for the configured time. */
  ghost predicate IsLate(c: Config, start: int, before: seq<Event>, e: Event)
  {
    e.Poll? && 0 < c.noOutputMs <= e.now - LastHeard(c, start, before)
  }

  /** There was such a poll, and the child has said nothing since. */
  ghost predicate Silent(c: Config, start: int, events: seq<Event>)
  {
    exists k :: 0 <= k < |events| && IsLate(c, start, events[..k], events[k]) && NoWordSince(c, events, k)
  }

  ghost predicate NoWordSince(c: Config, events: seq<Event>, k: nat)
  {
    forall j :: k < j < |events| ==> !Speaks(c, events[j])
  }

  function Said(kind: NoticeKind, text: string): seq<Notice>
  {
    [Notice(kind, Trim(text))]
  }

  function StartNotice(c: Config): seq<Notice>
  {
    Said(Start, "Started " + RelayLabel(c.agentId) + " session " + c.childKey
                + ". Streaming progress updates to parent session.")
  }

  /** The last words of a relay, by what ends it. */
  function Farewell(c: Config, e: Event): seq<Notice>
  {
    if e.LifetimeFires? then Said(Timeout, TimeoutText(c))
    else if e.Lifecycle? && e.phase.Some? && Trim(e.phase.value) == "end" then
      Said(Done, DoneText(c, e.startedAt, e.endedAt))
    else if e.Lifecycle? then Said(Failed, FailedText(c, e.error))
    else []
  }

  /** What an event makes a relay say of its child, other than what the child said. */
  ghost function Signal(c: Config, start: int, before: seq<Event>, e: Event): seq<Notice>
  {
    if e.NotifyStarted? then StartNotice(c)
    else if Ended(c, before) then []
    else if Ends(c, e) then Farewell(c, e)
    else if Speaks(c, e) && Silent(c, start, before) then Said(Resumed, RelayLabel(c.agentId) + " resumed output.")
    else if IsLate(c, start, before, e) && !Silent(c, start, before) then Said(Stall, StallText(c))
    else []
  }

  ghost function Signals(c: Config, emitStart: bool, start: int, events: seq<Event>): seq<Notice>
  {
    if events == [] then (if emitStart then StartNotice(c) else [])
    else
      var before := events[..|events| - 1];
      Signals(c, emitStart, start, before) + Signal(c, start, before, events[|events| - 1])
  }

  /** The notices other than progress. */
  function SignalsOf(notices: seq<Notice>): seq<Notice>
  {
    if notices == [] then []
    else
      var last := notices[|notices| - 1];
      SignalsOf(notices[..|notices| - 1]) + if last.kind.Progress? then [] else [last]
  }

  // ----- one event -----

  lemma SignalsSnoc(notices: seq<Notice>, n: Notice)
    ensures SignalsOf(notices + [n]) == SignalsOf(notices) + if n.kind.Progress? then [] else [n]
  {
    assert (notices + [n])[..|notices|] == notices;
  }

  lemma EmitSignals(s: Relay, kind: NoticeKind, text: string)
    requires text != "" && !IsSpace(text[0])
    ensures var r := Emit(s, kind, text);
      && r == s.(notices := r.notices)
      && SignalsOf(r.notices) == SignalsOf(s.notices) + if kind.Progress? then [] else Said(kind, text)
  {
    hide Emit, Trim, SignalsOf, PhaseOf, After;
    EmitAdds(s, kind, text);
    SignalsSnoc(s.notices, Notice(kind, Trim(text)));
  }

  lemma FlushSignals(c: Config, s: Relay)
    ensures var r := Flush(c, s);
      && SignalsOf(r.notices) == SignalsOf(s.notices) && r.stallNotified == s.stallNotified
      && r.disposed == s.disposed
  {
    hide Emit, Trim, SignalsOf, RelayLabel, CompactWhitespace, Truncate;
    var snippet := Truncate(CompactWhitespace(s.pendingText), SNIPPET_MAX);
    EmitSignals(s.(flushArmed := false, pendingText := ""), Progress, RelayLabel(c.agentId) + ": " + snippet);
    NothingAdded(SignalsOf(s.notices));
  }

  lemma TakeSignals(c: Config, s: Relay, delta: string, now: int)
    ensures var r := Take(c, s, delta, now);
      SignalsOf(r.notices) == SignalsOf(s.notices) && r.stallNotified == s.stallNotified && r.disposed == s.disposed
  {
    hide Flush, SignalsOf, HasBlankLine;
    FlushSignals(c, s.(lastProgressAt := now, pendingText := LastN(s.pendingText + delta, BUFFER_MAX)));
  }

  lemma DeltaSignals(c: Config, s: Relay, delta: string, now: int)
    requires Visible(delta) != ""
    ensures var r := OnDelta(c, s, Some(delta), now);
      && !r.stallNotified && r.disposed == s.disposed
      && SignalsOf(r.notices) == SignalsOf(s.notices)
           + if s.stallNotified then Said(Resumed, RelayLabel(c.agentId) + " resumed output.") else []
  {
    hide Take, Emit, SignalsOf, RelayLabel, Trim, Visible;
    BlankExactly(delta);
    var quiet := s.(stallNotified := false);
    var text := RelayLabel(c.agentId) + " resumed output.";
    EmitSignals(quiet, Resumed, text);
    TakeSignals(c, if s.stallNotified then Emit(quiet, Resumed, text) else s, delta, now);
    NothingAdded(SignalsOf(s.notices));
  }

  lemma LifecycleSignals(c: Config, s: Relay, e: Event)
    requires e.Lifecycle? && e.runId == c.runId
    ensures var r := OnLifecycle(c, s, e);
      && r.stallNotified == s.stallNotified
      && SignalsOf(r.notices) == SignalsOf(s.notices) + if Ends(c, e) then Farewell(c, e) else []
  {
    hide Emit, Flush, SignalsOf, Trim, RelayLabel, Decimal, Trimmed;
    NothingAdded(SignalsOf(s.notices));
    TrimAgain(e.phase);
    EndIsSaid();
    FlushSignals(c, s);
    if Ends(c, e) {
      LabelledSignals(c, Flush(c, s), Done, DoneText(c, e.startedAt, e.endedAt));
      LabelledSignals(c, Flush(c, s), Failed, FailedText(c, e.error));
    }
  }

  lemma EndIsSaid()
    ensures "end" != "" && "error" != "" && "end" != "error"
  {
    assert |"end"| == 3 && |"error"| == 5;
  }

  /** A text that begins with the label is emitted. */
  lemma LabelledSignals(c: Config, s: Relay, kind: NoticeKind, text: string)
    requires RelayLabel(c.agentId) <= text && !kind.Progress?
    ensures var r := Emit(s, kind, text);
      r == s.(notices := r.notices) && SignalsOf(r.notices) == SignalsOf(s.notices) + Said(kind, text)
  {
    hide Emit, SignalsOf, Trim;
    EmitSignals(s, kind, text);
  }

  /** The state `r` after an event has said what the state before and the event call for. */
  ghost predicate HasSaid(c: Config, s: Relay, e: Event, r: Relay)
  {
    var late := e.Poll? && 0 < c.noOutputMs <= e.now - s.lastProgressAt;
    && SignalsOf(r.notices) == SignalsOf(s.notices)
         + (if e.NotifyStarted? then StartNotice(c)
            else if s.disposed then []
            else if Ends(c, e) then Farewell(c, e)
            else if Speaks(c, e) && s.stallNotified then Said(Resumed, RelayLabel(c.agentId) + " resumed output.")
            else if late && !s.stallNotified then Said(Stall, StallText(c))
            else [])
    && (!r.disposed ==> r.stallNotified == (!Speaks(c, e) && (s.stallNotified || late)))
  }

  lemma AssistantSignals(c: Config, s: Relay, e: Event)
    requires Inv(c, s) && e.Assistant?
    ensures HasSaid(c, s, e, Step(c, s, e))
  {
    hide OnDelta, SignalsOf, PhaseOf, Trim, RelayLabel, Said, Visible, StartNotice, Farewell, StallText;
    NothingAdded(SignalsOf(s.notices));
    if e.runId == c.runId && !s.disposed {
      if Speaks(c, e) {
        DeltaSignals(c, s, e.delta.value, e.now);
      } else {
        if e.delta.Some? {
          BlankExactly(e.delta.value);
        }
        BlankDelta(c, s, e.delta, e.now);
      }
    }
  }

  lemma TimerSignals(c: Config, s: Relay, e: Event)
    requires Inv(c, s) && (e.Poll? || e.FlushFires? || e.LifetimeFires?)
    ensures HasSaid(c, s, e, Step(c, s, e))
  {
    hide Flush, Emit, SignalsOf, PhaseOf, Trim, RelayLabel, Decimal, Said, StartNotice;
    NothingAdded(SignalsOf(s.notices));
    FlushSignals(c, s);
    LabelledSignals(c, s.(stallNotified := true), Stall, StallText(c));
    LabelledSignals(c, s, Timeout, TimeoutText(c));
  }

  /** What one event makes the relay say, in terms of its state. */
  lemma StepSignals(c: Config, s: Relay, e: Event)
    requires Inv(c, s)
    ensures HasSaid(c, s, e, Step(c, s, e))
  {
    hide OnLifecycle, SignalsOf, PhaseOf, RelayLabel, StartNotice, EmitStart, Said, OnDelta, StallText, Farewell;
    NothingAdded(SignalsOf(s.notices));
    match e
    case Assistant(_, _, _) => AssistantSignals(c, s, e);
    case Lifecycle(runId, _, _, _, _) =>
      if runId == c.runId && !s.disposed {
        LifecycleSignals(c, s, e);
      }
    case OtherStream(_) =>
    case NotifyStarted => StartSignals(c, s);
    case DisposeCalled => NoFarewell(c);
    case _ => TimerSignals(c, s, e);
  }

  lemma NoFarewell(c: Config)
    ensures Farewell(c, DisposeCalled) == []
  {
  }

  lemma StartSignals(c: Config, s: Relay)
    ensures var r := EmitStart(c, s);
      && r == s.(notices := r.notices)
      && SignalsOf(r.notices) == SignalsOf(s.notices) + StartNotice(c)
  {
    hide Emit, SignalsOf, Trim, RelayLabel;
    var text := "Started " + RelayLabel(c.agentId) + " session " + c.childKey
                + ". Streaming progress updates to parent session.";
    assert text[0] == 'S';
    EmitSignals(s, Start, text);
  }

  // ----- over whole runs -----

  lemma SilentSnoc(c: Config, start: int, events: seq<Event>)
    requires events != []
    ensures var before, e := events[..|events| - 1], events[|events| - 1];
      Silent(c, start, events) <==> !Speaks(c, e) && (Silent(c, start, before) || IsLate(c, start, before, e))
  {
    hide IsLate, Speaks, NoWordSince;
    var n, before, e := |events| - 1, events[..|events| - 1], events[|events| - 1];
    forall k: nat | k < |events|
      ensures k < n ==> before[..k] == events[..k]
      ensures NoWordSince(c, events, k) <==> k == n || (NoWordSince(c, before, k) && !Speaks(c, e))
    {
      SinceSnoc(c, events, k);
    }
    LateIsQuiet(c, start, before, e);
    if Silent(c, start, events) {
      var k :| 0 <= k < |events| && IsLate(c, start, events[..k], events[k]) && NoWordSince(c, events, k);
      assert k < n ==> IsLate(c, start, before[..k], before[k]);
    }
    if Silent(c, start, before) && !Speaks(c, e) {
      var k :| 0 <= k < n && IsLate(c, start, before[..k], before[k]) && NoWordSince(c, before, k);
      assert IsLate(c, start, events[..k], events[k]);
    }
    if IsLate(c, start, before, e) {
      assert IsLate(c, start, events[..n], events[n]);
    }
  }

  lemma SinceSnoc(c: Config, events: seq<Event>, k: nat)
    requires k < |events|
    ensures var before, e := events[..|events| - 1], events[|events| - 1];
      NoWordSince(c, events, k) <==> k == |before| || (NoWordSince(c, before, k) && !Speaks(c, e))
  {
    hide Speaks;
    assert forall j :: k < j < |events| - 1 ==> events[..|events| - 1][j] == events[j];
  }

  lemma LateIsQuiet(c: Config, start: int, before: seq<Event>, e: Event)
    ensures IsLate(c, start, before, e) ==> !Speaks(c, e)
  {
  }

  /** In every run, the notices other than progress are exactly these: a start notice whenever one
      is asked for; one stall notice when a poll first finds the child silent for the configured
      time; one notice of resuming with the next text after it; and, with the event that ends
      the relay, the notice of that ending, after which nothing but start notices is said. */
  lemma {:induction false} SignalsExactly(c: Config, emitStart: bool, start: int, events: seq<Event>)
    ensures var s := RunAll(c, Begin(c, emitStart, start), events);
      && SignalsOf(s.notices) == Signals(c, emitStart, start, events)
      && (!s.disposed ==> (s.stallNotified <==> Silent(c, start, events)))
  {
    hide Step, Inv, Speaks, Ends, Silent, Farewell, StartNotice, Said, Told, Ended, IsLate, StallText, RelayLabel;
    if events == [] {
      FirstSignals(c, emitStart, start);
    } else {
      var before, e := events[..|events| - 1], events[|events| - 1];
      var s := RunAll(c, Begin(c, emitStart, start), before);
      SignalsExactly(c, emitStart, start, before);
      RunKeeps(c, emitStart, start, before);
      var _ := EverythingIsTold(c, emitStart, start, before);
      var _ := EverythingIsTold(c, emitStart, start, events);
      EndedSnoc(c, events);
      SilentSnoc(c, start, events);
      LateMeans(c, start, before, e);
      StepSignals(c, s, e);
    }
  }

  lemma LateMeans(c: Config, start: int, before: seq<Event>, e: Event)
    ensures IsLate(c, start, before, e) <==> e.Poll? && 0 < c.noOutputMs <= e.now - LastHeard(c, start, before)
  {
  }

  lemma FirstSignals(c: Config, emitStart: bool, start: int)
    ensures var s := RunAll(c, Begin(c, emitStart, start), []);
      && SignalsOf(s.notices) == Signals(c, emitStart, start, []) && !s.stallNotified && !Silent(c, start, [])
  {
    hide EmitStart, StartNotice;
    var s := Relay(false, "", start, false, false, true, true, true, []);
    StartSignals(c, s);
    NothingAdded(StartNotice(c));
    assert [] + StartNotice(c) == StartNotice(c);
  }
}
