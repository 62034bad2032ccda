/** The event loop of `createAnthropicMessagesTransportStreamFn`
    (src/agents/anthropic-transport-stream.ts), which changes the message in place. */
module AnthropicStream {
  import opened Collections
  import opened AnthropicFold

  class AssistantOutput {
    var content: seq<Block>
    var usage: Usage
    /** What has been pushed to the stream of updates. */
    var pushed: seq<Update>
    var stopReason: string
    var responseId: Option<string>

    constructor ()
      ensures View() == EMPTY
    {
      content, usage, pushed := [], Usage(0, 0, 0, 0, 0), [];
      stopReason, responseId := "stop", None;
    }

    ghost function View(): Output
      reads this
    {
      Output(content, usage, pushed, stopReason, responseId)
    }

    /** `blocks.findIndex(...)`, with the length for -1. */
    method FindIndex(index: EventIndex) returns (i: nat)
      ensures i == Find(content, index)
    {
      i := 0;
      while i < |content| && !Matches(content[i], index)
        invariant i <= |content|
        invariant Find(content, index) == i + Find(content[i..], index)
      {
        assert content[i..][1..] == content[i + 1..];
        i := i + 1;
      }
    }

    method Process(e: Event)
      modifies this
      ensures View() == Apply(old(View()), e)
    {
      match e
      case MessageStart(id, c) =>
        responseId := id;
        SetUsage(OrElse(c.input, 0), OrElse(c.output, 0), OrElse(c.cacheRead, 0), OrElse(c.cacheWrite, 0));
      case MessageDelta(stop, c) =>
        if stop.Some? { stopReason := MapStopReason(stop.value); }
        var u := usage;
        if c.input.Some? { u := u.(input := c.input.value); }
        if c.output.Some? { u := u.(output := c.output.value); }
        if c.cacheRead.Some? { u := u.(cacheRead := c.cacheRead.value); }
        if c.cacheWrite.Some? { u := u.(cacheWrite := c.cacheWrite.value); }
        SetUsage(u.input, u.output, u.cacheRead, u.cacheWrite);
      case OtherEvent =>
      case BlockStart(index, started) =>
        var made := NewBlock(started, index);
        if made.Some? {
          content := content + [made.value];
          pushed := pushed + [Started(made.value.Kind(), |content| - 1)];
        }
      case BlockDelta(index, delta) =>
        var i := FindIndex(index);
        if i < |content| {
          Extended(i, delta);
        }
      case BlockStop(index) =>
        var i := FindIndex(index);
        if i < |content| {
          content := content[i := Close(content[i])];
          pushed := pushed + [Ended(content[i].Kind(), i, content[i].Content())];
        }
    }

    method SetUsage(input: int, output: int, cacheRead: int, cacheWrite: int)
      modifies this`usage
      ensures usage == WithTotal(input, output, cacheRead, cacheWrite)
    {
      usage := Usage(input, output, cacheRead, cacheWrite, 0);
      usage := usage.(totalTokens := usage.input + usage.output + usage.cacheRead + usage.cacheWrite);
    }

    /** Appends a delta to the block it is for. */
    method Extended(i: nat, delta: Delta)
      requires i < |content|
      modifies this
      ensures View() == Grow(old(View()), i, delta)
    {
      var b := content[i];
      match (b, delta)
      case (Text(t, _), TextDelta(s)) =>
        content := content[i := b.(text := t + s)];
        pushed := pushed + [Grew(TextKind, i, s)];
      case (Thinking(t, _, _, _), ThinkingDelta(s)) =>
        content := content[i := b.(thinking := t + s)];
        pushed := pushed + [Grew(ThinkingKind, i, s)];
      case (ToolCall(_, _, _, json, _), JsonDelta(s)) =>
        var all := (if json.Some? then json.value else "undefined") + s;
        content := content[i := b.(partialJson := Some(all), arguments := Parsed(all))];
        pushed := pushed + [Grew(ToolKind, i, s)];
      case (Thinking(_, signature, _, _), SignatureDelta(s)) =>
        content := content[i := b.(signature := signature + s)];
      case _ =>
        assert content[i := b] == content;
    }

    /** The whole stream, one event after the other. */
    method Consume(events: seq<Event>)
      requires View() == EMPTY
      modifies this
      ensures View() == Fold(events)
    {
      var i := 0;
      while i < |events|
        invariant 0 <= i <= |events| && View() == Fold(events[..i])
      {
        assert events[..i + 1][..i] == events[..i];
        Process(events[i]);
        i := i + 1;
      }
      assert events[..i] == events;
    }
  }
}
