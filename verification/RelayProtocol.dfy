/** The relay of a child agent's progress to its parent as a state machine
    (`startAcpSpawnParentStreamRelay` in src/agents/acp-spawn-parent-stream.ts). */
module RelayProtocol {
  import opened Collections
  import opened Text
  import opened RelayText

  datatype NoticeKind = Start | Progress | Stall | Resumed | Timeout | Done | Failed

  datatype Notice = Notice(kind: NoticeKind, text: string)

  /** What a relay is started with, delays in milliseconds. */
  datatype Config = Config(runId: string, agentId: string, childKey: string,
                           flushMs: nat, noOutputMs: nat, lifetimeMs: nat)

  datatype Relay = Relay(disposed: bool, pendingText: string, lastProgressAt: int, stallNotified: bool,
                         flushArmed: bool, lifetimeArmed: bool, watching: bool, subscribed: bool,
                         notices: seq<Notice>)

  datatype Event =
    | Assistant(runId: string, delta: Option<string>, now: int)
    | Lifecycle(runId: string, phase: Option<string>, startedAt: Option<int>, endedAt: Option<int>,
                error: Option<string>)
    | OtherStream(runId: string)
    | Poll(now: int)
    | FlushFires
    | LifetimeFires
    | NotifyStarted
    | DisposeCalled

  // ----- the actions -----

  function Emit(s: Relay, kind: NoticeKind, text: string): Relay
  {
    var cleaned := Trim(text);
    if cleaned == "" then s else s.(notices := s.notices + [Notice(kind, cleaned)])
  }

  function EmitStart(c: Config, s: Relay): Relay
  {
    Emit(s, Start, "Started " + RelayLabel(c.agentId) + " session " + c.childKey
                   + ". Streaming progress updates to parent session.")
  }

  function Dispose(s: Relay): Relay
  {
    if s.disposed then s
    else s.(disposed := true, flushArmed := false, lifetimeArmed := false, watching := false, subscribed := false)
  }

  function Flush(c: Config, s: Relay): Relay
  {
    var unarmed := s.(flushArmed := false);
    if s.pendingText == "" then unarmed
    else
      var snippet := Truncate(CompactWhitespace(s.pendingText), SNIPPET_MAX);
      var emptied := unarmed.(pendingText := "");
      if snippet == "" then emptied else Emit(emptied, Progress, RelayLabel(c.agentId) + ": " + snippet)
  }

  function Schedule(c: Config, s: Relay): Relay
  {
    if s.disposed || s.flushArmed || c.flushMs == 0 then s else s.(flushArmed := true)
  }

  predicate HasBlankLine(s: string)
  {
    exists i :: 0 <= i < |s| - 1 && s[i] == '\n' && s[i + 1] == '\n'
  }

  function OnDelta(c: Config, s: Relay, delta: Option<string>, now: int): Relay
  {
    if delta.None? || Trim(delta.value) == "" then s
    else
      var awake := if s.stallNotified
                   then Emit(s.(stallNotified := false), Resumed, RelayLabel(c.agentId) + " resumed output.")
                   else s;
      Take(c, awake, delta.value, now)
  }

  function Take(c: Config, s: Relay, delta: string, now: int): Relay
  {
    var text := LastN(s.pendingText + delta, BUFFER_MAX);
    var grown := s.(lastProgressAt := now, pendingText := text);
    if |text| >= SNIPPET_MAX || HasBlankLine(delta) then Flush(c, grown) else Schedule(c, grown)
  }

  /** `toTrimmedString`. */
  function Trimmed(s: Option<string>): Option<string>
  {
    if s.None? || Trim(s.value) == "" then None else Some(Trim(s.value))
  }

  function DoneText(c: Config, startedAt: Option<int>, endedAt: Option<int>): string
  {
    RelayLabel(c.agentId) +
    if startedAt.Some? && endedAt.Some? && endedAt.value >= startedAt.value then
      var s := Seconds(endedAt.value - startedAt.value);
      " run completed in " + Decimal(if s < 1 then 1 else s) + "s."
    else " run completed."
  }

  function FailedText(c: Config, error: Option<string>): string
  {
    RelayLabel(c.agentId) + if Trimmed(error).Some? then " run failed: " + Trimmed(error).value else " run failed."
  }

  function OnLifecycle(c: Config, s: Relay, e: Event): Relay
    requires e.Lifecycle?
  {
    match Trimmed(e.phase)
    case Some("end") => Dispose(Emit(Flush(c, s), Done, DoneText(c, e.startedAt, e.endedAt)))
    case Some("error") => Dispose(Emit(Flush(c, s), Failed, FailedText(c, e.error)))
    case _ => s
  }

  function StallText(c: Config): string
  {
    RelayLabel(c.agentId) + " has produced no output for " + Decimal(Seconds(c.noOutputMs))
    + "s. It may be waiting for interactive input."
  }

  function TimeoutText(c: Config): string
  {
    var s := Seconds(c.lifetimeMs);
    RelayLabel(c.agentId) + " stream relay timed out after " + Decimal(if s < 1 then 1 else s) + "s without completion."
  }

  function OnPoll(c: Config, s: Relay, now: int): Relay
  {
    if !s.watching || s.disposed || c.noOutputMs == 0 || s.stallNotified || now - s.lastProgressAt < c.noOutputMs then s
    else Emit(s.(stallNotified := true), Stall, StallText(c))
  }

  function OnLifetime(c: Config, s: Relay): Relay
  {
    if s.disposed || !s.lifetimeArmed then s
    else Dispose(Emit(s, Timeout, TimeoutText(c)))
  }

  predicate Deaf(c: Config, s: Relay, runId: string)
  {
    !s.subscribed || s.disposed || runId != c.runId
  }

  /** One event; a timer that is not armed cannot fire, and nothing is heard without the
      subscription. */
  function Step(c: Config, s: Relay, e: Event): Relay
  {
    match e
    case Assistant(runId, delta, now) => if Deaf(c, s, runId) then s else OnDelta(c, s, delta, now)
    case Lifecycle(runId, _, _, _, _) => if Deaf(c, s, runId) then s else OnLifecycle(c, s, e)
    case OtherStream(_) => s
    case Poll(now) => OnPoll(c, s, now)
    case FlushFires => if s.flushArmed then Flush(c, s) else s
    case LifetimeFires => OnLifetime(c, s)
    case NotifyStarted => EmitStart(c, s)
    case DisposeCalled => Dispose(s)
  }

  function Begin(c: Config, emitStart: bool, now: int): Relay
  {
    var s := Relay(false, "", now, false, false, true, true, true, []);
    if emitStart then EmitStart(c, s) else s
  }

  function RunAll(c: Config, s: Relay, events: seq<Event>): Relay
  {
    if events == [] then s else Step(c, RunAll(c, s, events[..|events| - 1]), events[|events| - 1])
  }

  // ----- what the parent sees -----

  /** Where a list of notices leaves the parent: output flowing, stalled, finished, or out of order. */
  datatype Phase = Flowing | Stalled | Finished | OutOfOrder

  function After(p: Phase, kind: NoticeKind): Phase
  {
    match kind
    case Start => p
    case Progress => if p.Finished? then OutOfOrder else p
    case Stall => if p.Flowing? then Stalled else OutOfOrder
    case Resumed => if p.Stalled? then Flowing else OutOfOrder
    case _ => if p.Flowing? || p.Stalled? then Finished else OutOfOrder
  }

  function PhaseOf(notices: seq<Notice>): Phase
  {
    if notices == [] then Flowing
    else After(PhaseOf(notices[..|notices| - 1]), notices[|notices| - 1].kind)
  }

  predicate Terminal(n: Notice) { n.kind.Timeout? || n.kind.Done? || n.kind.Failed? }

  /** A notice of this kind lies between the two positions. */
  ghost predicate Between(notices: seq<Notice>, lo: int, hi: int, kind: NoticeKind)
  {
    exists k :: 0 <= k < |notices| && lo < k < hi && notices[k].kind == kind
  }

  lemma BetweenMore(notices: seq<Notice>, last: Notice, lo: int, hi: int, kind: NoticeKind)
    requires hi <= |notices|
    ensures Between(notices + [last], lo, hi, kind) <==> Between(notices, lo, hi, kind)
    ensures -1 <= lo < |notices| ==>
      (Between(notices + [last], lo, |notices| + 1, kind) <==>
       Between(notices, lo, |notices|, kind) || last.kind == kind)
  {
    var all := notices + [last];
    assert all[|notices|] == last;
    assert forall k :: 0 <= k < |notices| ==> all[k] == notices[k];
  }

  /** In terms of the notices: between two stalls lies a resume, in front of a resume and
      behind the previous one lies a stall, and only start notices follow a terminal one. */
  ghost predicate WellOrdered(notices: seq<Notice>)
  {
    && (forall i, j :: 0 <= i < j < |notices| && notices[i].kind.Stall? && notices[j].kind.Stall? ==>
          Between(notices, i, j, Resumed))
    && (forall i, j :: 0 <= i < j < |notices| && notices[i].kind.Resumed? && notices[j].kind.Resumed? ==>
          Between(notices, i, j, Stall))
    && (forall j :: 0 <= j < |notices| && notices[j].kind.Resumed? ==> Between(notices, -1, j, Stall))
    && (forall i, j :: 0 <= i < j < |notices| && Terminal(notices[i]) ==> notices[j].kind.Start?)
  }

  /** What the phase says about the notices that led to it. */
  ghost predicate PhaseMeans(notices: seq<Notice>, p: Phase)
  {
    && (p.Flowing? ==> forall i :: 0 <= i < |notices| && notices[i].kind.Stall? ==>
          Between(notices, i, |notices|, Resumed))
    && (p.Stalled? ==> forall i :: 0 <= i < |notices| && notices[i].kind.Resumed? ==>
          Between(notices, i, |notices|, Stall))
    && (p.Stalled? ==> Between(notices, -1, |notices|, Stall))
    && (!p.Finished? ==> forall i :: 0 <= i < |notices| ==> !Terminal(notices[i]))
  }

  lemma {:induction false} PhasesAreRight(notices: seq<Notice>)
    requires PhaseOf(notices) != OutOfOrder
    ensures WellOrdered(notices) && PhaseMeans(notices, PhaseOf(notices))
    decreases |notices|
  {
    if notices != [] {
      var before, last := notices[..|notices| - 1], notices[|notices| - 1];
      PhasesAreRight(before);
      assert notices == before + [last];
      WellOrderedMore(before, PhaseOf(before), last);
      PhaseMeansMore(before, PhaseOf(before), last);
    }
  }

  lemma WellOrderedMore(before: seq<Notice>, p: Phase, last: Notice)
    requires WellOrdered(before) && PhaseMeans(before, p) && After(p, last.kind) != OutOfOrder
    ensures WellOrdered(before + [last])
  {
    hide Between;
    var all, n := before + [last], |before|;
    forall i, j, kind | 0 <= j < |all| && -1 <= i < j
      ensures Between(all, i, j, kind) <==> Between(before, i, j, kind)
    {
      BetweenMore(before, last, i, j, kind);
    }
    assert all[n] == last && forall k :: 0 <= k < n ==> all[k] == before[k];
  }

  lemma PhaseMeansMore(before: seq<Notice>, p: Phase, last: Notice)
    requires PhaseMeans(before, p) && After(p, last.kind) != OutOfOrder
    ensures PhaseMeans(before + [last], After(p, last.kind))
  {
    hide Between;
    var all, n := before + [last], |before|;
    forall i, kind | -1 <= i < n
      ensures Between(all, i, |all|, kind) <==> Between(before, i, |before|, kind) || last.kind == kind
    {
      BetweenMore(before, last, i, n, kind);
    }
    BetweenMore(before, last, -1, n, Stall);
    assert all[n] == last && forall k :: 0 <= k < n ==> all[k] == before[k];
  }

  // ----- what every run keeps -----

  ghost predicate Inv(c: Config, s: Relay)
  {
    && |s.pendingText| < SNIPPET_MAX
    && (s.disposed ==> !s.flushArmed)
    && (s.lifetimeArmed <==> !s.disposed)
    && (s.watching <==> !s.disposed) && (s.subscribed <==> !s.disposed)
    && (!s.disposed && c.flushMs > 0 && s.pendingText != "" ==> s.flushArmed)
    && (c.flushMs == 0 ==> !s.flushArmed)
    && PhaseOf(s.notices) != OutOfOrder
    && (!s.disposed ==> PhaseOf(s.notices) == if s.stallNotified then Stalled else Flowing)
  }

  /** A notice that begins with a visible character is emitted as one more notice. */
  lemma EmitAdds(s: Relay, kind: NoticeKind, text: string)
    requires text != "" && !IsSpace(text[0])
    ensures Emit(s, kind, text) == s.(notices := s.notices + [Notice(kind, Trim(text))])
    ensures PhaseOf(Emit(s, kind, text).notices) == After(PhaseOf(s.notices), kind)
  {
    TrimEndIsPrefix(text);
    assert TrimEnd(text)[0] == text[0];
    assert (s.notices + [Notice(kind, Trim(text))])[..|s.notices|] == s.notices;
  }

  lemma LabelledEmits(c: Config, s: Relay, kind: NoticeKind, rest: string)
    ensures var text := RelayLabel(c.agentId) + rest;
      && Emit(s, kind, text) == s.(notices := s.notices + [Notice(kind, Trim(text))])
      && PhaseOf(Emit(s, kind, text).notices) == After(PhaseOf(s.notices), kind)
  {
    EmitAdds(s, kind, RelayLabel(c.agentId) + rest);
  }

  lemma FlushKeeps(c: Config, s: Relay)
    requires PhaseOf(s.notices) == Flowing || PhaseOf(s.notices) == Stalled
    ensures var r := Flush(c, s);
      && r.pendingText == "" && !r.flushArmed && PhaseOf(r.notices) == PhaseOf(s.notices)
      && r == s.(pendingText := r.pendingText, flushArmed := false, notices := r.notices)
  {
    hide Emit, RelayLabel, CompactWhitespace, Truncate, PhaseOf, Trim;
    var snippet := Truncate(CompactWhitespace(s.pendingText), SNIPPET_MAX);
    var emptied := s.(flushArmed := false, pendingText := "");
    LabelledEmits(c, emptied, Progress, ": " + snippet);
    assert RelayLabel(c.agentId) + (": " + snippet) == RelayLabel(c.agentId) + ": " + snippet;
  }

  lemma DeltaKeeps(c: Config, s: Relay, delta: Option<string>, now: int)
    requires Inv(c, s) && !s.disposed
    ensures Inv(c, OnDelta(c, s, delta, now))
  {
    hide Emit, Flush, RelayLabel, Trim, HasBlankLine;
    if delta.Some? && Trim(delta.value) != "" {
      LabelledEmits(c, s.(stallNotified := false), Resumed, " resumed output.");
      var awake := if s.stallNotified
                   then Emit(s.(stallNotified := false), Resumed, RelayLabel(c.agentId) + " resumed output.")
                   else s;
      var text := LastN(awake.pendingText + delta.value, BUFFER_MAX);
      FlushKeeps(c, awake.(lastProgressAt := now, pendingText := text));
    }
  }

  lemma LifecycleKeeps(c: Config, s: Relay, e: Event)
    requires Inv(c, s) && !s.disposed && e.Lifecycle?
    ensures Inv(c, OnLifecycle(c, s, e))
  {
    hide Emit, Flush, RelayLabel, Trim, PhaseOf, Decimal;
    FlushKeeps(c, s);
    var f, l := Flush(c, s), RelayLabel(c.agentId);
    LabelledEmits(c, f, Done, DoneText(c, e.startedAt, e.endedAt)[|l|..]);
    assert DoneText(c, e.startedAt, e.endedAt) == l + DoneText(c, e.startedAt, e.endedAt)[|l|..];
    LabelledEmits(c, f, Failed, FailedText(c, e.error)[|l|..]);
    assert FailedText(c, e.error) == l + FailedText(c, e.error)[|l|..];
  }

  lemma PollKeeps(c: Config, s: Relay, now: int)
    requires Inv(c, s)
    ensures Inv(c, OnPoll(c, s, now))
  {
    hide Emit, RelayLabel, Trim, PhaseOf, Decimal;
    var l := RelayLabel(c.agentId);
    LabelledEmits(c, s.(stallNotified := true), Stall, StallText(c)[|l|..]);
    assert StallText(c) == l + StallText(c)[|l|..];
  }

  lemma LifetimeKeeps(c: Config, s: Relay)
    requires Inv(c, s)
    ensures Inv(c, OnLifetime(c, s))
  {
    hide Emit, RelayLabel, Trim, PhaseOf, Decimal;
    var l := RelayLabel(c.agentId);
    LabelledEmits(c, s, Timeout, TimeoutText(c)[|l|..]);
    assert TimeoutText(c) == l + TimeoutText(c)[|l|..];
  }

  lemma StartKeeps(c: Config, s: Relay)
    requires Inv(c, s)
    ensures Inv(c, EmitStart(c, s))
  {
    var text := "Started " + RelayLabel(c.agentId) + " session " + c.childKey
                + ". Streaming progress updates to parent session.";
    assert text[0] == 'S';
    EmitAdds(s, Start, text);
  }

  lemma StepKeeps(c: Config, s: Relay, e: Event)
    requires Inv(c, s)
    ensures Inv(c, Step(c, s, e))
  {
    hide OnDelta, OnLifecycle, OnPoll, OnLifetime, EmitStart, Flush;
    match e
    case Assistant(_, delta, now) => if !s.disposed { DeltaKeeps(c, s, delta, now); }
    case Lifecycle(_, _, _, _, _) => if !s.disposed { LifecycleKeeps(c, s, e); }
    case OtherStream(_) =>
    case Poll(now) => PollKeeps(c, s, now);
    case FlushFires => if s.flushArmed { FlushKeeps(c, s); }
    case LifetimeFires => LifetimeKeeps(c, s);
    case NotifyStarted => StartKeeps(c, s);
    case DisposeCalled =>
  }

  /** In every run: the buffer stays under the snippet length, live buffered text has its
      flush scheduled when there is a flush delay, and the notices are in order. */
  lemma {:induction false} RunKeeps(c: Config, emitStart: bool, now: int, events: seq<Event>)
    ensures var s := RunAll(c, Begin(c, emitStart, now), events);
      Inv(c, s) && WellOrdered(s.notices)
  {
    hide Step, EmitStart;
    var s := RunAll(c, Begin(c, emitStart, now), events);
    if events == [] {
      StartKeeps(c, Relay(false, "", now, false, false, true, true, true, []));
    } else {
      var before := events[..|events| - 1];
      RunKeeps(c, emitStart, now, before);
      StepKeeps(c, RunAll(c, Begin(c, emitStart, now), before), events[|events| - 1]);
    }
    PhasesAreRight(s.notices);
  }

  /** Once disposed, a relay emits nothing but start notices, and its timers stay off. */
  lemma {:induction false} DisposedIsSilent(c: Config, s: Relay, events: seq<Event>)
    requires Inv(c, s) && s.disposed
    ensures var r := RunAll(c, s, events);
      && r.disposed && Inv(c, r) && s.notices <= r.notices
      && forall i :: |s.notices| <= i < |r.notices| ==> r.notices[i].kind.Start?
  {
    hide Flush, OnDelta, OnLifecycle, Trim;
    if events != [] {
      var before := events[..|events| - 1];
      DisposedIsSilent(c, s, before);
      StepKeeps(c, RunAll(c, s, before), events[|events| - 1]);
    }
  }

  /** The flush guard is the exact condition: a run of a relay without a flush delay can
      leave text in the buffer with nothing scheduled. */
  lemma WithoutDelayTextMayWait(c: Config, now: int)
    requires c.flushMs == 0
    ensures var s := RunAll(c, Begin(c, false, now), [Assistant(c.runId, Some("x"), now)]);
      !s.disposed && s.pendingText == "x" && !s.flushArmed
  {
    var b := Begin(c, false, now);
    assert [Assistant(c.runId, Some("x"), now)][..0] == [];
    assert RunAll(c, b, []) == b;
    TrimFixed("x");
    assert "" + "x" == "x";
  }

  // ----- progress notices -----

  /** A progress notice is the label and a snippet of bounded length. */
  ghost predicate ProgressIsShort(c: Config, n: Notice)
  {
    n.kind.Progress? ==> |n.text| <= LABEL_MAX + 2 + SNIPPET_MAX && RelayLabel(c.agentId) <= n.text
  }

  ghost predicate AllShort(c: Config, s: Relay)
  {
    forall i :: 0 <= i < |s.notices| ==> ProgressIsShort(c, s.notices[i])
  }

  lemma SnippetNotice(c: Config, snippet: string)
    requires |snippet| <= SNIPPET_MAX && snippet != "" && !IsSpace(snippet[0])
    ensures ProgressIsShort(c, Notice(Progress, Trim(RelayLabel(c.agentId) + ": " + snippet)))
  {
    hide RelayLabel;
    var l, text := RelayLabel(c.agentId), RelayLabel(c.agentId) + ": " + snippet;
    assert text[|l| + 2] == snippet[0];
    TrimEndIsPrefix(text);
    assert TrimEnd(text)[0] == l[0] == text[0];
    assert |TrimEnd(text)| > |l| + 2;
  }

  lemma FlushIsShort(c: Config, s: Relay)
    requires AllShort(c, s)
    ensures AllShort(c, Flush(c, s))
  {
    hide RelayLabel, CompactWhitespace, Truncate, Trim;
    var snippet := Truncate(CompactWhitespace(s.pendingText), SNIPPET_MAX);
    CompactIsRight(s.pendingText);
    if snippet != "" {
      SnippetNotice(c, snippet);
    }
  }

  lemma EmitIsShort(c: Config, s: Relay, kind: NoticeKind, text: string)
    requires AllShort(c, s) && !kind.Progress?
    ensures AllShort(c, Emit(s, kind, text))
  {
  }

  lemma DeltaIsShort(c: Config, s: Relay, delta: Option<string>, now: int)
    requires AllShort(c, s)
    ensures AllShort(c, OnDelta(c, s, delta, now))
  {
    hide Emit, Flush, RelayLabel, Trim, HasBlankLine;
    EmitIsShort(c, s.(stallNotified := false), Resumed, RelayLabel(c.agentId) + " resumed output.");
    if delta.Some? {
      var awake := if s.stallNotified
                   then Emit(s.(stallNotified := false), Resumed, RelayLabel(c.agentId) + " resumed output.")
                   else s;
      FlushIsShort(c, awake.(lastProgressAt := now, pendingText := LastN(awake.pendingText + delta.value, BUFFER_MAX)));
    }
  }

  lemma StepIsShort(c: Config, s: Relay, e: Event)
    requires AllShort(c, s)
    ensures AllShort(c, Step(c, s, e))
  {
    hide Emit, Flush, OnDelta, RelayLabel, Trim, ProgressIsShort;
    FlushIsShort(c, s);
    match e
    case Assistant(_, delta, now) => DeltaIsShort(c, s, delta, now);
    case Lifecycle(_, _, startedAt, endedAt, error) =>
      EmitIsShort(c, Flush(c, s), Done, DoneText(c, startedAt, endedAt));
      EmitIsShort(c, Flush(c, s), Failed, FailedText(c, error));
    case Poll(_) => EmitIsShort(c, s.(stallNotified := true), Stall, StallText(c));
    case LifetimeFires => EmitIsShort(c, s, Timeout, TimeoutText(c));
    case NotifyStarted =>
      EmitIsShort(c, s, Start, "Started " + RelayLabel(c.agentId) + " session " + c.childKey
                               + ". Streaming progress updates to parent session.");
    case _ =>
  }

  /** In every run, progress notices are labelled and at most 262 characters long. */
  lemma {:induction false} ProgressStaysShort(c: Config, emitStart: bool, now: int, events: seq<Event>)
    ensures AllShort(c, RunAll(c, Begin(c, emitStart, now), events))
  {
    hide Step, ProgressIsShort;
    if events == [] {
      StepIsShort(c, Relay(false, "", now, false, false, true, true, true, []), NotifyStarted);
      StartIsNotify(c, Relay(false, "", now, false, false, true, true, true, []));
    } else {
      var before := events[..|events| - 1];
      ProgressStaysShort(c, emitStart, now, before);
      StepIsShort(c, RunAll(c, Begin(c, emitStart, now), before), events[|events| - 1]);
    }
  }

  lemma StartIsNotify(c: Config, s: Relay)
    ensures Step(c, s, NotifyStarted) == EmitStart(c, s)
  {
  }

  /** When the flush timer fires the buffer is short enough to be shown whole: nothing but
      white space is lost. */
  lemma TimedFlushShowsEverything(c: Config, s: Relay)
    requires Inv(c, s) && s.flushArmed && Visible(s.pendingText) != ""
    ensures var r := Step(c, s, FlushFires);
      && r.pendingText == "" && !r.flushArmed && |r.notices| == |s.notices| + 1
      && r.notices[|s.notices|].kind.Progress?
      && Visible(r.notices[|s.notices|].text) == Visible(RelayLabel(c.agentId) + ": ") + Visible(s.pendingText)
  {
    hide RelayLabel, CompactWhitespace, Trim, Emit, PhaseOf;
    var snippet := CompactWhitespace(s.pendingText);
    CompactIsRight(s.pendingText);
    assert snippet != "";
    assert Truncate(snippet, SNIPPET_MAX) == snippet;
    var l := RelayLabel(c.agentId);
    LabelledEmits(c, s.(flushArmed := false, pendingText := ""), Progress, ": " + snippet);
    assert l + (": " + snippet) == l + ": " + snippet;
    VisibleOfWholeTrim(l + ": " + snippet);
    VisibleAppend(l + ": ", snippet);
  }

  lemma VisibleOfWholeTrim(s: string)
    ensures Visible(Trim(s)) == Visible(s)
  {
    VisibleOfTrim(s);
    VisibleOfTrim(TrimEnd(s));
  }
}
