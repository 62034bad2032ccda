/** What a relay tells the parent of the text its child produces, over every run. */
module RelayTold {
  import opened Collections
  import opened Text
  import opened RelayText
  import opened RelayProtocol

  // ----- what the child says -----

  /** The event ends the relay: its lifetime is over, it is disposed of, or the child's run has
      ended or failed. */
  predicate Ends(c: Config, e: Event)
  {
    || e.LifetimeFires? || e.DisposeCalled?
    || (&& e.Lifecycle? && e.runId == c.runId && e.phase.Some?
        && (Trim(e.phase.value) == "end" || Trim(e.phase.value) == "error"))
  }

  ghost predicate Ended(c: Config, events: seq<Event>)
  {
    exists k :: 0 <= k < |events| && Ends(c, events[k])
  }

  /** Text of the child's run that is not blank. */
  predicate Speaks(c: Config, e: Event)
  {
    e.Assistant? && e.runId == c.runId && e.delta.Some? && Visible(e.delta.value) != ""
  }

  /** All that the child has said to a relay that has not ended. */
  ghost function Heard(c: Config, events: seq<Event>): string
  {
    if events == [] then ""
    else
      var before, e := events[..|events| - 1], events[|events| - 1];
      Heard(c, before) + if Speaks(c, e) && !Ended(c, before) then e.delta.value else ""
  }

  /** When it last did, or the relay began. */
  ghost function LastHeard(c: Config, start: int, events: seq<Event>): int
  {
    if events == [] then start
    else
      var before, e := events[..|events| - 1], events[|events| - 1];
      if Speaks(c, e) && !Ended(c, before) then e.now else LastHeard(c, start, before)
  }

  // ----- what the parent is told -----

  /** The notices of progress. */
  function ProgressOf(notices: seq<Notice>): seq<Notice>
  {
    if notices == [] then []
    else
      var last := notices[|notices| - 1];
      ProgressOf(notices[..|notices| - 1]) + if last.kind.Progress? then [last] else []
  }

  /** What is shown of a text: its last 4000 characters, compacted, cut to 220. */
  function Snippet(text: string): string
  {
    Truncate(CompactWhitespace(LastN(text, BUFFER_MAX)), SNIPPET_MAX)
  }

  function Shown(c: Config, text: string): seq<Notice>
  {
    if Snippet(text) == "" then []
    else [Notice(Progress, Trim(RelayLabel(c.agentId) + ": " + Snippet(text)))]
  }

  /** What is shown of texts that were flushed one after the other. */
  function AllShown(c: Config, flushed: seq<string>): seq<Notice>
  {
    if flushed == [] then []
    else AllShown(c, flushed[..|flushed| - 1]) + Shown(c, flushed[|flushed| - 1])
  }

  /** The text heard is what was flushed, text after text, and the buffer; and the notices of
      progress show the flushed texts. */
  ghost predicate Told(c: Config, s: Relay, heard: string, flushed: seq<string>)
  {
    Flatten(flushed) + s.pendingText == heard && ProgressOf(s.notices) == AllShown(c, flushed)
  }

  // ----- one event -----

  lemma ProgressSnoc(notices: seq<Notice>, n: Notice)
    ensures ProgressOf(notices + [n]) == ProgressOf(notices) + if n.kind.Progress? then [n] else []
  {
    assert (notices + [n])[..|notices|] == notices;
  }

  lemma EmitTells(s: Relay, kind: NoticeKind, text: string)
    ensures var r := Emit(s, kind, text);
      && r == s.(notices := r.notices)
      && ProgressOf(r.notices) == ProgressOf(s.notices)
           + if kind.Progress? && Trim(text) != "" then [Notice(kind, Trim(text))] else []
  {
    hide Trim, ProgressOf;
    ProgressSnoc(s.notices, Notice(kind, Trim(text)));
    NothingAdded(ProgressOf(s.notices));
  }

  lemma AllShownSnoc(c: Config, flushed: seq<string>, text: string)
    ensures AllShown(c, flushed + [text]) == AllShown(c, flushed) + Shown(c, text)
  {
    hide Shown;
    assert (flushed + [text])[..|flushed|] == flushed;
  }

  /** A flush shows the buffer, which may have been cut to its last 4000 characters. */
  lemma FlushTells(c: Config, s: Relay, text: string, heard: string, flushed: seq<string>)
    requires s.pendingText == LastN(text, BUFFER_MAX) && text != ""
    requires Flatten(flushed) + text == heard && ProgressOf(s.notices) == AllShown(c, flushed)
    ensures Told(c, Flush(c, s), heard, flushed + [text])
    ensures var r := Flush(c, s); r == s.(pendingText := "", flushArmed := false, notices := r.notices)
  {
    hide Emit, RelayLabel, CompactWhitespace, Truncate, Trim, ProgressOf, AllShown, Flatten;
    var snippet := Truncate(CompactWhitespace(s.pendingText), SNIPPET_MAX);
    var emptied := s.(flushArmed := false, pendingText := "");
    AllShownSnoc(c, flushed, text);
    FlattenSnoc(flushed, text);
    NothingAdded(heard);
    NothingAdded(AllShown(c, flushed));
    if snippet != "" {
      EmitTells(emptied, Progress, RelayLabel(c.agentId) + ": " + snippet);
      LabelledText(c, ": " + snippet);
      assert RelayLabel(c.agentId) + (": " + snippet) == RelayLabel(c.agentId) + ": " + snippet;
    }
  }

  lemma LabelledText(c: Config, rest: string)
    ensures Trim(RelayLabel(c.agentId) + rest) != ""
  {
    hide RelayLabel, TrimEnd, IsSpace;
    var text := RelayLabel(c.agentId) + rest;
    TrimEndIsPrefix(text);
    assert !IsSpace(text[0]);
    assert TrimEnd(text) != "";
    assert TrimEnd(text)[0] == text[0];
  }

  lemma BlankExactly(s: string)
    ensures Trim(s) == "" <==> Visible(s) == ""
  {
    hide TrimStart, TrimEnd;
    VisibleOfTrim(s);
    VisibleOfTrim(TrimEnd(s));
    if Trim(s) != "" {
      TrimStartIsSuffix(TrimEnd(s));
    }
  }

  /** Text that arrives is put behind the buffer, and shown at once if there are 220 characters
      or a blank line. */
  lemma TakeTells(c: Config, s: Relay, delta: string, now: int, heard: string, flushed: seq<string>)
    returns (more: seq<string>)
    requires Told(c, s, heard, flushed) && |s.pendingText| < SNIPPET_MAX && delta != ""
    ensures var r := Take(c, s, delta, now);
      && Told(c, r, heard + delta, flushed + more) && r.lastProgressAt == now && r.disposed == s.disposed
      && (if |s.pendingText + delta| >= SNIPPET_MAX || HasBlankLine(delta)
          then more == [s.pendingText + delta] && r.pendingText == ""
          else more == [] && r.pendingText == s.pendingText + delta && r.notices == s.notices)
  {
    hide HasBlankLine, Flush, ProgressOf, AllShown, Flatten;
    var text := s.pendingText + delta;
    var grown := s.(lastProgressAt := now, pendingText := LastN(text, BUFFER_MAX));
    Regroup(Flatten(flushed), s.pendingText, delta);
    if |LastN(text, BUFFER_MAX)| >= SNIPPET_MAX || HasBlankLine(delta) {
      more := [text];
      FlushTells(c, grown, text, heard + delta, flushed);
    } else {
      more := [];
      NothingAdded(flushed);
    }
  }

  lemma EmitKeepsTold(c: Config, s: Relay, kind: NoticeKind, text: string, heard: string, flushed: seq<string>)
    requires Told(c, s, heard, flushed) && !kind.Progress?
    ensures Told(c, Emit(s, kind, text), heard, flushed)
  {
    hide ProgressOf, AllShown, Flatten, Trim;
    EmitTells(s, kind, text);
    NothingAdded(ProgressOf(s.notices));
  }

  lemma DeltaTells(c: Config, s: Relay, delta: string, now: int, heard: string, flushed: seq<string>)
    returns (more: seq<string>)
    requires Told(c, s, heard, flushed) && |s.pendingText| < SNIPPET_MAX && Visible(delta) != ""
    ensures var r := OnDelta(c, s, Some(delta), now);
      Told(c, r, heard + delta, flushed + more) && r.lastProgressAt == now && r.disposed == s.disposed
  {
    hide Emit, Take, RelayLabel, Told, Trim;
    BlankExactly(delta);
    SomethingSaid(delta);
    var quiet := s.(stallNotified := false);
    QuietTold(c, s, heard, flushed);
    var text := RelayLabel(c.agentId) + " resumed output.";
    EmitKeepsTold(c, quiet, Resumed, text, heard, flushed);
    EmitTells(quiet, Resumed, text);
    var awake := if s.stallNotified then Emit(quiet, Resumed, text) else s;
    more := TakeTells(c, awake, delta, now, heard, flushed);
  }

  lemma SomethingSaid(delta: string)
    requires Visible(delta) != ""
    ensures delta != ""
  {
  }

  lemma QuietTold(c: Config, s: Relay, heard: string, flushed: seq<string>)
    requires Told(c, s, heard, flushed)
    ensures forall r: Relay :: r.pendingText == s.pendingText && r.notices == s.notices ==> Told(c, r, heard, flushed)
  {
    hide ProgressOf, AllShown, Flatten;
  }

  /** A flush between deltas shows all of the buffer. */
  lemma WholeFlushTells(c: Config, s: Relay, heard: string, flushed: seq<string>) returns (more: seq<string>)
    requires Told(c, s, heard, flushed) && |s.pendingText| < SNIPPET_MAX
    ensures var r := Flush(c, s);
      && Told(c, r, heard, flushed + more) && r.pendingText == ""
      && r == s.(pendingText := "", flushArmed := false, notices := r.notices)
  {
    hide ProgressOf, AllShown, Flatten, Emit;
    if s.pendingText == "" {
      more := [];
      NothingAdded(flushed);
    } else {
      more := [s.pendingText];
      FlushTells(c, s, s.pendingText, heard, flushed);
    }
  }

  lemma LifecycleTells(c: Config, s: Relay, e: Event, heard: string, flushed: seq<string>) returns (more: seq<string>)
    requires e.Lifecycle? && e.runId == c.runId && Told(c, s, heard, flushed) && |s.pendingText| < SNIPPET_MAX
    requires !s.disposed
    ensures var r := OnLifecycle(c, s, e);
      Told(c, r, heard, flushed + more) && r.lastProgressAt == s.lastProgressAt && (r.disposed <==> Ends(c, e))
  {
    hide Emit, Flush, Told, Trim, DoneText, FailedText;
    var phase := Trimmed(e.phase);
    TrimAgain(e.phase);
    if phase == Some("end") || phase == Some("error") {
      more := WholeFlushTells(c, s, heard, flushed);
      var f := Flush(c, s);
      var kind, text := if phase == Some("end") then Done else Failed,
                        if phase == Some("end") then DoneText(c, e.startedAt, e.endedAt) else FailedText(c, e.error);
      EmitKeepsTold(c, f, kind, text, heard, flushed + more);
      EmitTells(f, kind, text);
      QuietTold(c, Emit(f, kind, text), heard, flushed + more);
    } else {
      more := [];
      NothingAdded(flushed);
    }
  }

  lemma TrimAgain(s: Option<string>)
    ensures Trimmed(s) == if s.Some? && Trim(s.value) != "" then Some(Trim(s.value)) else None
  {
  }

  /** What one event adds to what is told. */
  lemma StepTells(c: Config, s: Relay, e: Event, heard: string, flushed: seq<string>) returns (more: seq<string>)
    requires Inv(c, s) && Told(c, s, heard, flushed)
    ensures var r := Step(c, s, e); var hears := Speaks(c, e) && !s.disposed;
      && Told(c, r, heard + (if hears then e.delta.value else ""), flushed + more)
      && (r.disposed <==> s.disposed || Ends(c, e))
      && r.lastProgressAt == (if hears then e.now else s.lastProgressAt)
  {
    hide OnDelta, OnLifecycle, Flush, Emit, Told, PhaseOf, Trim, RelayLabel;
    more := [];
    NothingAdded(flushed);
    NothingAdded(heard);
    QuietTold(c, s, heard, flushed);
    match e
    case Assistant(runId, delta, now) =>
      if runId == c.runId && !s.disposed && delta.Some? {
        BlankExactly(delta.value);
        if Visible(delta.value) != "" {
          more := DeltaTells(c, s, delta.value, now, heard, flushed);
        } else {
          BlankDelta(c, s, delta, now);
        }
      } else {
        BlankDelta(c, s, None, now);
      }
    case Lifecycle(runId, phase, startedAt, endedAt, error) =>
      if runId == c.runId && !s.disposed {
        more := LifecycleTells(c, s, e, heard, flushed);
      }
    case OtherStream(_) =>
    case Poll(now) =>
      EmitKeepsTold(c, s.(stallNotified := true), Stall, StallText(c), heard, flushed);
      EmitTells(s.(stallNotified := true), Stall, StallText(c));
    case FlushFires =>
      if s.flushArmed {
        more := WholeFlushTells(c, s, heard, flushed);
      }
    case LifetimeFires =>
      EmitKeepsTold(c, s, Timeout, TimeoutText(c), heard, flushed);
      EmitTells(s, Timeout, TimeoutText(c));
      QuietTold(c, Emit(s, Timeout, TimeoutText(c)), heard, flushed);
    case NotifyStarted => StartTells(c, s, heard, flushed);
    case DisposeCalled =>
  }

  lemma BlankDelta(c: Config, s: Relay, delta: Option<string>, now: int)
    requires delta.Some? ==> Trim(delta.value) == ""
    ensures OnDelta(c, s, delta, now) == s
  {
  }

  lemma StartTells(c: Config, s: Relay, heard: string, flushed: seq<string>)
    requires Told(c, s, heard, flushed)
    ensures var r := EmitStart(c, s); Told(c, r, heard, flushed) && r == s.(notices := r.notices)
  {
    hide Emit, Told, RelayLabel;
    var text := "Started " + RelayLabel(c.agentId) + " session " + c.childKey
                + ". Streaming progress updates to parent session.";
    EmitKeepsTold(c, s, Start, text, heard, flushed);
    EmitTells(s, Start, text);
  }

  // ----- over whole runs -----

  lemma EndedSnoc(c: Config, events: seq<Event>)
    requires events != []
    ensures var before := events[..|events| - 1];
      Ended(c, events) <==> Ended(c, before) || Ends(c, events[|events| - 1])
  {
    hide Ends;
    var before := events[..|events| - 1];
    if Ended(c, before) {
      var k :| 0 <= k < |before| && Ends(c, before[k]);
      assert Ends(c, events[k]);
    }
  }

  /** In every run: the relay has ended exactly if an event has ended it; all text of the child's
      run up to then was flushed, text after text, or is in the buffer, which is under 220
      characters; the notices of progress show the flushed texts in order; and the last time of
      progress is that of the last text. */
  lemma {:induction false} EverythingIsTold(c: Config, emitStart: bool, start: int, events: seq<Event>)
    returns (flushed: seq<string>)
    ensures var s := RunAll(c, Begin(c, emitStart, start), events);
      && Told(c, s, Heard(c, events), flushed) && |s.pendingText| < SNIPPET_MAX
      && (s.disposed <==> Ended(c, events)) && s.lastProgressAt == LastHeard(c, start, events)
  {
    hide Step, EmitStart, Told, Speaks, Ends, Ended;
    RunKeeps(c, emitStart, start, events);
    if events == [] {
      flushed := [];
      NothingTold(c, emitStart, start);
    } else {
      var before, e := events[..|events| - 1], events[|events| - 1];
      flushed := EverythingIsTold(c, emitStart, start, before);
      RunKeeps(c, emitStart, start, before);
      var more := StepTells(c, RunAll(c, Begin(c, emitStart, start), before), e, Heard(c, before), flushed);
      EndedSnoc(c, events);
      flushed := flushed + more;
    }
  }

  lemma NothingTold(c: Config, emitStart: bool, start: int)
    ensures var s := RunAll(c, Begin(c, emitStart, start), []);
      Told(c, s, Heard(c, []), []) && !s.disposed && !Ended(c, []) && s.lastProgressAt == start
  {
    hide EmitStart;
    var s := Relay(false, "", start, false, false, true, true, true, []);
    assert Told(c, s, "", []);
    StartTells(c, s, "", []);
  }

  // ----- nothing visible is lost -----

  function Mark(c: Config): string
  {
    Visible(RelayLabel(c.agentId) + ": ")
  }

  /** The notices without their labels and without white space. */
  function Bodies(c: Config, notices: seq<Notice>): string
  {
    if notices == [] then ""
    else
      var text := Visible(notices[|notices| - 1].text);
      Bodies(c, notices[..|notices| - 1]) + if |Mark(c)| <= |text| then text[|Mark(c)|..] else ""
  }

  lemma BodiesSnoc(c: Config, notices: seq<Notice>, n: Notice, body: string)
    requires Visible(n.text) == Mark(c) + body
    ensures Bodies(c, notices + [n]) == Bodies(c, notices) + body
  {
    hide Visible, Mark;
    assert (notices + [n])[..|notices|] == notices;
    TakeApart(Mark(c), body);
  }

  /** A text of at most 220 characters is shown whole. */
  lemma ShownWhole(c: Config, notices: seq<Notice>, text: string)
    requires |text| <= SNIPPET_MAX
    ensures Bodies(c, notices + Shown(c, text)) == Bodies(c, notices) + Visible(text)
  {
    hide CompactWhitespace, Visible, Bodies, Trim, RelayLabel;
    CompactIsRight(text);
    assert Snippet(text) == CompactWhitespace(text);
    NothingAdded(notices);
    if Snippet(text) == "" {
      VisibleNothing();
      NothingAdded(Bodies(c, notices));
    } else {
      var l := RelayLabel(c.agentId);
      VisibleOfWholeTrim(l + ": " + Snippet(text));
      VisibleAppend(l + ": ", Snippet(text));
      BodiesSnoc(c, notices, Notice(Progress, Trim(l + ": " + Snippet(text))), Visible(text));
    }
  }

  lemma VisibleNothing()
    ensures Visible("") == ""
  {
  }

  lemma {:induction false} AllShownWhole(c: Config, flushed: seq<string>)
    requires forall i :: 0 <= i < |flushed| ==> |flushed[i]| <= SNIPPET_MAX
    ensures Bodies(c, AllShown(c, flushed)) == Visible(Flatten(flushed))
  {
    hide Visible, Shown, Mark, Flatten;
    if flushed == [] {
      VisibleNothing();
      FlattenNothing();
    } else {
      var before, last := flushed[..|flushed| - 1], flushed[|flushed| - 1];
      assert flushed == before + [last];
      AllShownWhole(c, before);
      FlattenSnoc(before, last);
      VisibleAppend(Flatten(before), last);
      ShownWhole(c, AllShown(c, before), last);
    }
  }

  lemma FlattenNothing()
    ensures Flatten<char>([]) == ""
  {
  }

  /** If no flushed text had more than 220 characters, what is visible in the notices of progress,
      without their labels, and then in the buffer, is what is visible in all the child said. */
  lemma NothingVisibleIsLost(c: Config, s: Relay, heard: string, flushed: seq<string>)
    requires Told(c, s, heard, flushed) && forall i :: 0 <= i < |flushed| ==> |flushed[i]| <= SNIPPET_MAX
    ensures Bodies(c, ProgressOf(s.notices)) + Visible(s.pendingText) == Visible(heard)
  {
    hide Visible, Shown, Mark, Flatten;
    AllShownWhole(c, flushed);
    VisibleAppend(Flatten(flushed), s.pendingText);
  }

  lemma TakeText(c: Config, s: Relay, delta: string, now: int)
    requires |s.pendingText| < SNIPPET_MAX
    ensures var r := Take(c, s, delta, now);
      r.pendingText == if |s.pendingText| + |delta| >= SNIPPET_MAX || HasBlankLine(delta) then ""
                       else s.pendingText + delta
  {
    hide Emit, HasBlankLine, RelayLabel, Truncate, CompactWhitespace;
    var grown := s.(lastProgressAt := now, pendingText := LastN(s.pendingText + delta, BUFFER_MAX));
    FlushEmpties(c, grown);
  }

  lemma FlushEmpties(c: Config, s: Relay)
    ensures Flush(c, s).pendingText == ""
  {
    hide Trim, RelayLabel, Truncate, CompactWhitespace;
  }

  lemma HearsDelta(c: Config, s: Relay, delta: string, now: int)
    requires Inv(c, s) && !s.disposed
    ensures Step(c, s, Assistant(c.runId, Some(delta), now)) == OnDelta(c, s, Some(delta), now)
  {
    hide OnDelta, PhaseOf;
  }

  lemma TakesDelta(c: Config, s: Relay, delta: string, now: int) returns (awake: Relay)
    requires Visible(delta) != ""
    ensures OnDelta(c, s, Some(delta), now) == Take(c, awake, delta, now) && awake.pendingText == s.pendingText
  {
    hide Take, Emit, RelayLabel, Trim, Visible;
    BlankExactly(delta);
    var quiet := s.(stallNotified := false);
    var text := RelayLabel(c.agentId) + " resumed output.";
    EmitTells(quiet, Resumed, text);
    awake := if s.stallNotified then Emit(quiet, Resumed, text) else s;
  }

  /** A delta is shown at once exactly if it takes the buffer to 220 characters or has a blank
      line; else it waits in the buffer. */
  lemma DeltaIsShownAtOnceExactly(c: Config, s: Relay, delta: string, now: int)
    requires Inv(c, s) && !s.disposed && Visible(delta) != ""
    ensures Step(c, s, Assistant(c.runId, Some(delta), now)).pendingText ==
            if |s.pendingText| + |delta| >= SNIPPET_MAX || HasBlankLine(delta) then "" else s.pendingText + delta
  {
    hide Take, OnDelta, Step, HasBlankLine, PhaseOf, Visible;
    HearsDelta(c, s, delta, now);
    var awake := TakesDelta(c, s, delta, now);
    TakeText(c, awake, delta, now);
  }
}
