/** The relay itself: the closures of `startAcpSpawnParentStreamRelay` over the variables
    they change (src/agents/acp-spawn-parent-stream.ts). */
module SpawnRelay {
  import opened Collections
  import opened Text
  import opened RelayText
  import opened RelayProtocol

  class ParentStreamRelay {
    const config: Config
    const surfaceUpdates: bool
    var disposed: bool
    var pendingText: string
    var lastProgressAt: int
    var stallNotified: bool
    var flushTimer: bool
    var relayLifetimeTimer: bool
    var noOutputWatcher: bool
    var subscribed: bool
    /** The notices, as logged; `surfaced` are those put into the parent's queue. */
    var notices: seq<Notice>
    var surfaced: seq<Notice>

    ghost function View(): Relay
      reads this
    {
      Relay(disposed, pendingText, lastProgressAt, stallNotified, flushTimer, relayLifetimeTimer,
            noOutputWatcher, subscribed, notices)
    }

    ghost predicate Valid()
      reads this
    {
      surfaced == if surfaceUpdates then notices else []
    }

    constructor (c: Config, surface: bool, emitStart: bool, now: int)
      ensures Valid() && config == c && surfaceUpdates == surface
      ensures View() == Begin(c, emitStart, now)
    {
      config, surfaceUpdates := c, surface;
      disposed, pendingText, lastProgressAt, stallNotified := false, "", now, false;
      flushTimer, relayLifetimeTimer, noOutputWatcher, subscribed := false, true, true, true;
      notices, surfaced := [], [];
      new;
      if emitStart {
        EmitStartNotice();
      }
    }

    method EmitNotice(kind: NoticeKind, text: string)
      requires Valid()
      modifies this`notices, this`surfaced
      ensures Valid() && View() == Emit(old(View()), kind, text)
    {
      var cleaned := Trim(text);
      if cleaned == "" {
        return;
      }
      notices := notices + [Notice(kind, cleaned)];
      if surfaceUpdates {
        surfaced := surfaced + [Notice(kind, cleaned)];
      }
    }

    /** Also what the caller's `notifyStarted` does. */
    method EmitStartNotice()
      requires Valid()
      modifies this`notices, this`surfaced
      ensures Valid() && View() == EmitStart(config, old(View()))
    {
      EmitNotice(Start, "Started " + RelayLabel(config.agentId) + " session " + config.childKey
                        + ". Streaming progress updates to parent session.");
    }

    method DisposeRelay()
      requires Valid()
      modifies this
      ensures Valid() && View() == Dispose(old(View()))
    {
      if disposed {
        return;
      }
      disposed := true;
      flushTimer := false;
      relayLifetimeTimer := false;
      noOutputWatcher := false;
      subscribed := false;
    }

    method FlushPending()
      requires Valid()
      modifies this
      ensures Valid() && View() == Flush(config, old(View()))
    {
      flushTimer := false;
      if pendingText == "" {
        return;
      }
      var snippet := Truncate(CompactWhitespace(pendingText), SNIPPET_MAX);
      pendingText := "";
      if snippet == "" {
        return;
      }
      EmitNotice(Progress, RelayLabel(config.agentId) + ": " + snippet);
    }

    method ScheduleFlush()
      requires Valid()
      modifies this
      ensures Valid() && View() == Schedule(config, old(View()))
    {
      if disposed || flushTimer || config.flushMs <= 0 {
        return;
      }
      flushTimer := true;
    }

    /** The interval that watches for missing output. */
    method WatchOutput(now: int)
      requires Valid()
      modifies this
      ensures Valid() && View() == Step(config, old(View()), Poll(now))
    {
      if !noOutputWatcher || disposed || config.noOutputMs <= 0 {
        return;
      }
      if stallNotified {
        return;
      }
      if now - lastProgressAt < config.noOutputMs {
        return;
      }
      stallNotified := true;
      EmitNotice(Stall, StallText(config));
    }

    /** The flush timer's callback. */
    method FlushTimerFires()
      requires Valid()
      modifies this
      ensures Valid() && View() == Step(config, old(View()), FlushFires)
    {
      if flushTimer {
        FlushPending();
      }
    }

    /** The lifetime timer's callback. */
    method LifetimeTimerFires()
      requires Valid()
      modifies this
      ensures Valid() && View() == Step(config, old(View()), LifetimeFires)
    {
      if !relayLifetimeTimer || disposed {
        return;
      }
      EmitNotice(Timeout, TimeoutText(config));
      DisposeRelay();
    }

    /** What the subscription does with an agent event. */
    method OnAgentEvent(e: Event)
      requires Valid() && (e.Assistant? || e.Lifecycle? || e.OtherStream?)
      modifies this
      ensures Valid() && View() == Step(config, old(View()), e)
    {
      if !subscribed || disposed || e.runId != config.runId {
        return;
      }
      match e
      case Assistant(_, delta, now) => TakeDelta(delta, now);
      case Lifecycle(_, rawPhase, startedAt, endedAt, error) =>
        var phase := Trimmed(rawPhase);
        if phase == Some("end") {
          FlushPending();
          EmitNotice(Done, DoneText(config, startedAt, endedAt));
          DisposeRelay();
          return;
        }
        if phase == Some("error") {
          FlushPending();
          EmitNotice(Failed, FailedText(config, error));
          DisposeRelay();
        }
      case OtherStream(_) =>
    }

    method TakeDelta(delta: Option<string>, now: int)
      requires Valid()
      modifies this
      ensures Valid() && View() == OnDelta(config, old(View()), delta, now)
    {
      hide Emit, Flush, Schedule, RelayLabel, Trim, HasBlankLine, LastN, CompactWhitespace, Truncate, Take;
      if delta.None? || Trim(delta.value) == "" {
        return;
      }
      if stallNotified {
        stallNotified := false;
        EmitNotice(Resumed, RelayLabel(config.agentId) + " resumed output.");
      }
      TakeText(delta.value, now);
    }

    method TakeText(delta: string, now: int)
      requires Valid()
      modifies this
      ensures Valid() && View() == Take(config, old(View()), delta, now)
    {
      hide Flush, Schedule, HasBlankLine;
      lastProgressAt := now;
      pendingText := pendingText + delta;
      if |pendingText| > BUFFER_MAX {
        pendingText := pendingText[|pendingText| - BUFFER_MAX..];
      }
      if |pendingText| >= SNIPPET_MAX || HasBlankLine(delta) {
        FlushPending();
        return;
      }
      ScheduleFlush();
    }
  }
}
