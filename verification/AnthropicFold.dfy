/** The fold over the Anthropic event stream (src/agents/anthropic-transport-stream.ts):
    what one event does to the message being built and to the stream of updates. */
module AnthropicFold {
  import opened Collections

  const REDACTED: string := "[Reasoning redacted]"

  /** The `index` of an event: a number, absent, or something of another type. */
  datatype EventIndex = Number(n: int) | Missing | NotANumber

  /** Tool arguments: as sent with the block, or what `parseStreamingJson` makes of a text. */
  datatype Arguments = Given(input: string) | Parsed(json: string)

  datatype BlockKind = TextKind | ThinkingKind | ToolKind

  /** A block under construction. `index` is deleted when it ends; so is `partialJson`. */
  datatype Block =
    | Text(text: string, index: Option<int>)
    | Thinking(thinking: string, signature: string, redacted: bool, index: Option<int>)
    | ToolCall(id: string, name: string, arguments: Arguments, partialJson: Option<string>, index: Option<int>)
  {
    function Kind(): BlockKind
    {
      match this
      case Text(_, _) => TextKind
      case Thinking(_, _, _, _) => ThinkingKind
      case ToolCall(_, _, _, _, _) => ToolKind
    }

    function Content(): string
    {
      match this
      case Text(t, _) => t
      case Thinking(t, _, _, _) => t
      case ToolCall(_, _, _, _, _) => ""
    }
  }

  datatype StartedBlock =
    | StartText
    | StartThinking
    | StartRedacted(data: string)
    | StartTool(id: string, name: string, input: string)
    | StartOther

  datatype Delta =
    | TextDelta(s: string) | ThinkingDelta(s: string) | JsonDelta(s: string) | SignatureDelta(s: string) | OtherDelta

  /** The counts a usage record reports; `None` where it has no number. */
  datatype Counts = Counts(input: Option<int>, output: Option<int>, cacheRead: Option<int>, cacheWrite: Option<int>)

  /** The stop reasons the fold knows; any other one throws, which ends the stream. */
  datatype StopReason = EndTurn | MaxTokens | ToolUse | PauseTurn | Refusal | Sensitive | StopSequence

  datatype Event =
    | MessageStart(id: Option<string>, counts: Counts)
    | BlockStart(index: EventIndex, started: StartedBlock)
    | BlockDelta(index: EventIndex, delta: Delta)
    | BlockStop(index: EventIndex)
    | MessageDelta(stop: Option<StopReason>, counts: Counts)
    | OtherEvent

  datatype Usage = Usage(input: int, output: int, cacheRead: int, cacheWrite: int, totalTokens: int)

  /** What is pushed to the reader; `at` is the position in the content. */
  datatype Update =
    | Started(kind: BlockKind, at: nat)
    | Grew(kind: BlockKind, at: nat, delta: string)
    | Ended(kind: BlockKind, at: nat, content: string)

  datatype Output = Output(content: seq<Block>, usage: Usage, pushed: seq<Update>, stopReason: string,
                           responseId: Option<string>)

  const EMPTY := Output([], Usage(0, 0, 0, 0, 0), [], "stop", None)

  // ----- one event -----

  function OrElse(a: Option<int>, b: int): int { if a.Some? then a.value else b }

  function WithTotal(input: int, output: int, cacheRead: int, cacheWrite: int): Usage
  {
    Usage(input, output, cacheRead, cacheWrite, input + output + cacheRead + cacheWrite)
  }

  function MapStopReason(reason: StopReason): (r: string)
    ensures r == "length" <==> reason == MaxTokens
    ensures r == "toolUse" <==> reason == ToolUse
    ensures r == "error" <==> reason == Refusal || reason == Sensitive
    ensures r in {"length", "toolUse", "error", "stop"}
  {
    assert |"length"| == 6 && |"toolUse"| == 7 && |"error"| == 5 && |"stop"| == 4;
    match reason
    case MaxTokens => "length"
    case ToolUse => "toolUse"
    case Refusal => "error"
    case Sensitive => "error"
    case _ => "stop"
  }

  /** `block.index === event.index`; a block that has ended has no index, as an event may have none. */
  predicate Matches(b: Block, index: EventIndex)
  {
    match index
    case Number(n) => b.index == Some(n)
    case Missing => b.index == None
    case NotANumber => false
  }

  /** The first matching position, or the length when there is none. */
  function Find(content: seq<Block>, index: EventIndex): (i: nat)
    ensures i <= |content| && (i < |content| ==> Matches(content[i], index))
    ensures forall k :: 0 <= k < i ==> !Matches(content[k], index)
  {
    if content == [] then 0
    else if Matches(content[0], index) then 0
    else 1 + Find(content[1..], index)
  }

  function NewBlock(started: StartedBlock, index: EventIndex): Option<Block>
  {
    var i := Some(if index.Number? then index.n else -1);
    match started
    case StartText => Some(Text("", i))
    case StartThinking => Some(Thinking("", "", false, i))
    case StartRedacted(data) => Some(Thinking(REDACTED, data, true, i))
    case StartTool(id, name, input) => Some(ToolCall(id, name, Given(input), Some(""), i))
    case StartOther => None
  }

  /** The block after a delta and the text to announce, if the delta is one for such a block.
      Appending to a deleted `partialJson` appends to the word JavaScript makes of it. */
  function Extend(b: Block, d: Delta): Option<(Block, string)>
  {
    match (b, d)
    case (Text(t, i), TextDelta(s)) => Some((Text(t + s, i), s))
    case (Thinking(t, g, r, i), ThinkingDelta(s)) => Some((Thinking(t + s, g, r, i), s))
    case (ToolCall(id, name, _, json, i), JsonDelta(s)) =>
      var all := (if json.Some? then json.value else "undefined") + s;
      Some((ToolCall(id, name, Parsed(all), Some(all), i), s))
    case _ => None
  }

  function Sign(b: Block, d: Delta): Block
  {
    if b.Thinking? && d.SignatureDelta? then b.(signature := b.signature + d.s) else b
  }

  function Close(b: Block): Block
  {
    match b
    case Text(t, _) => Text(t, None)
    case Thinking(t, g, r, _) => Thinking(t, g, r, None)
    case ToolCall(id, name, a, json, _) =>
      ToolCall(id, name, if json.Some? && json.value != "" then Parsed(json.value) else a, None, None)
  }

  function Apply(s: Output, e: Event): Output
  {
    match e
    case MessageStart(id, c) =>
      s.(responseId := id,
         usage := WithTotal(OrElse(c.input, 0), OrElse(c.output, 0), OrElse(c.cacheRead, 0), OrElse(c.cacheWrite, 0)))
    case MessageDelta(stop, c) =>
      var u := s.usage;
      s.(stopReason := if stop.Some? then MapStopReason(stop.value) else s.stopReason,
         usage := WithTotal(OrElse(c.input, u.input), OrElse(c.output, u.output),
                            OrElse(c.cacheRead, u.cacheRead), OrElse(c.cacheWrite, u.cacheWrite)))
    case OtherEvent => s
    case BlockStart(index, started) =>
      (match NewBlock(started, index)
       case None => s
       case Some(b) => s.(content := s.content + [b], pushed := s.pushed + [Started(b.Kind(), |s.content|)]))
    case BlockDelta(index, delta) => Grow(s, Find(s.content, index), delta)
    case BlockStop(index) => Stop(s, Find(s.content, index))
  }

  function Grow(s: Output, i: nat, delta: Delta): Output
  {
    if i >= |s.content| then s
    else match Extend(s.content[i], delta)
      case None => s.(content := s.content[i := Sign(s.content[i], delta)])
      case Some((b, text)) => s.(content := s.content[i := b], pushed := s.pushed + [Grew(b.Kind(), i, text)])
  }

  function Stop(s: Output, i: nat): Output
  {
    if i >= |s.content| then s
    else
      var b := Close(s.content[i]);
      s.(content := s.content[i := b], pushed := s.pushed + [Ended(b.Kind(), i, b.Content())])
  }

  function Fold(events: seq<Event>): Output
  {
    if events == [] then EMPTY else Apply(Fold(events[..|events| - 1]), events[|events| - 1])
  }

  // ----- what a reader of the updates makes of them -----

  /** What a reader knows of one position: not started, growing, ended, or out of order. */
  datatype Reading =
    | Unstarted | Growing(kind: BlockKind, text: string) | Complete(kind: BlockKind, text: string) | Broken

  function Read(r: Reading, u: Update): Reading
  {
    match u
    case Started(kind, _) => if r.Unstarted? then Growing(kind, "") else Broken
    case Grew(kind, _, delta) => if r.Growing? && r.kind == kind then Growing(kind, r.text + delta) else Broken
    case Ended(kind, _, _) => if r.Growing? && r.kind == kind then Complete(kind, r.text) else Broken
  }

  function ReadAll(pushed: seq<Update>, at: nat): Reading
  {
    if pushed == [] then Unstarted
    else
      var last := pushed[|pushed| - 1];
      var before := ReadAll(pushed[..|pushed| - 1], at);
      if last.at == at then Read(before, last) else before
  }

  lemma ReadStep(pushed: seq<Update>, u: Update, at: nat)
    ensures ReadAll(pushed + [u], at) == if u.at == at then Read(ReadAll(pushed, at), u) else ReadAll(pushed, at)
  {
    assert (pushed + [u])[..|pushed|] == pushed;
  }

  /** One start, updates of one kind, at most one end, nothing behind it. */
  ghost predicate InOrder(pushed: seq<Update>)
  {
    forall at: nat :: ReadAll(pushed, at) != Broken
  }

  /** What a reader should have of a block. */
  predicate Agrees(b: Block, r: Reading)
  {
    && (if b.index.Some? then r.Growing? else r.Complete?)
    && r.kind == b.Kind()
    && match b
       case Text(t, _) => t == r.text
       case Thinking(t, _, redacted, _) => t == (if redacted then REDACTED else "") + r.text
       case ToolCall(_, _, arguments, json, index) =>
         && (json == if index.Some? then Some(r.text) else None)
         && (r.text != "" ==> arguments == Parsed(r.text))
  }

  /** The reader has exactly the blocks of the message. */
  ghost predicate Faithful(s: Output)
  {
    && (forall i :: 0 <= i < |s.content| ==> Agrees(s.content[i], ReadAll(s.pushed, i)))
    && (forall i :: i >= |s.content| ==> ReadAll(s.pushed, i) == Unstarted)
  }

  /** An event without an index reaches a block that has already ended, and announces it. */
  predicate Reopens(s: Output, e: Event)
  {
    (e.BlockDelta? || e.BlockStop?) && e.index.Missing? &&
    var i := Find(s.content, Missing);
    i < |s.content| && (e.BlockDelta? ==> Extend(s.content[i], e.delta).Some?)
  }

  lemma StartKeeps(s: Output, b: Block)
    requires Faithful(s) && b.index.Some? && Agrees(b, Growing(b.Kind(), ""))
    ensures Faithful(s.(content := s.content + [b], pushed := s.pushed + [Started(b.Kind(), |s.content|)]))
  {
    hide Agrees, ReadAll;
    var u := Started(b.Kind(), |s.content|);
    forall i: nat
      ensures ReadAll(s.pushed + [u], i) == if i == |s.content| then Growing(b.Kind(), "") else ReadAll(s.pushed, i)
    {
      ReadStep(s.pushed, u, i);
    }
  }

  /** Replacing one block and announcing it keeps the reader right about the others. */
  lemma ChangeKeeps(s: Output, i: nat, b: Block, u: Update)
    requires Faithful(s) && i < |s.content| && u.at == i
    requires Agrees(b, Read(ReadAll(s.pushed, i), u))
    ensures Faithful(s.(content := s.content[i := b], pushed := s.pushed + [u]))
  {
    hide Agrees, ReadAll, Read;
    forall k: nat
      ensures ReadAll(s.pushed + [u], k) == if k == i then Read(ReadAll(s.pushed, i), u) else ReadAll(s.pushed, k)
    {
      ReadStep(s.pushed, u, k);
    }
  }

  lemma ExtendAgrees(b: Block, r: Reading, d: Delta)
    requires Agrees(b, r) && b.index.Some? && Extend(b, d).Some?
    ensures var (n, text) := Extend(b, d).value; forall at :: Agrees(n, Read(r, Grew(n.Kind(), at, text)))
  {
    var (n, text) := Extend(b, d).value;
    if b.Thinking? {
      var head := if b.redacted then REDACTED else "";
      assert (head + r.text) + text == head + (r.text + text);
    }
  }

  lemma CloseAgrees(b: Block, r: Reading)
    requires Agrees(b, r) && b.index.Some?
    ensures forall at, text :: Agrees(Close(b), Read(r, Ended(Close(b).Kind(), at, text)))
  {
  }

  lemma GrowKeeps(s: Output, index: EventIndex, delta: Delta)
    requires Faithful(s) && !Reopens(s, BlockDelta(index, delta))
    ensures Faithful(Grow(s, Find(s.content, index), delta))
  {
    var i := Find(s.content, index);
    if i < |s.content| {
      var b, r := s.content[i], ReadAll(s.pushed, i);
      if Extend(b, delta).Some? {
        ExtendAgrees(b, r, delta);
        var (n, text) := Extend(b, delta).value;
        ChangeKeeps(s, i, n, Grew(n.Kind(), i, text));
      } else {
        assert Agrees(Sign(b, delta), r);
      }
    }
  }

  lemma StopKeeps(s: Output, index: EventIndex)
    requires Faithful(s) && !Reopens(s, BlockStop(index))
    ensures Faithful(Stop(s, Find(s.content, index)))
  {
    var i := Find(s.content, index);
    if i < |s.content| {
      var b := Close(s.content[i]);
      CloseAgrees(s.content[i], ReadAll(s.pushed, i));
      ChangeKeeps(s, i, b, Ended(b.Kind(), i, b.Content()));
    }
  }

  lemma StepKeepsFaithful(s: Output, e: Event)
    requires Faithful(s) && !Reopens(s, e)
    ensures Faithful(Apply(s, e))
  {
    hide Agrees, Find, Reopens;
    match e
    case BlockStart(index, started) =>
      if NewBlock(started, index).Some? {
        var b := NewBlock(started, index).value;
        NewBlockAgrees(started, index);
        StartKeeps(s, b);
      }
    case BlockDelta(index, delta) => GrowKeeps(s, index, delta);
    case BlockStop(index) => StopKeeps(s, index);
    case _ =>
  }

  lemma NewBlockAgrees(started: StartedBlock, index: EventIndex)
    requires NewBlock(started, index).Some?
    ensures var b := NewBlock(started, index).value; b.index.Some? && Agrees(b, Growing(b.Kind(), ""))
  {
  }

  // ----- over whole streams -----

  ghost predicate NothingReopened(events: seq<Event>)
  {
    forall k :: 0 <= k < |events| ==> !Reopens(Fold(events[..k]), events[k])
  }

  lemma NothingReopenedStep(events: seq<Event>)
    ensures var n := |events|; NothingReopened(events) <==>
      n == 0 || (NothingReopened(events[..n - 1]) && !Reopens(Fold(events[..n - 1]), events[n - 1]))
  {
    hide Reopens, Fold;
    if events != [] {
      var before := events[..|events| - 1];
      assert forall k :: 0 <= k < |before| ==> events[..k] == before[..k];
    }
  }

  lemma {:induction false} FoldIsFaithful(events: seq<Event>)
    requires NothingReopened(events)
    ensures Faithful(Fold(events))
  {
    if events != [] {
      var before := events[..|events| - 1];
      assert forall k :: 0 <= k < |before| ==> events[..k] == before[..k];
      FoldIsFaithful(before);
      StepKeepsFaithful(Fold(before), events[|events| - 1]);
    }
  }

  /** Whatever the events, once out of order stays out of order. */
  lemma BrokenStays(pushed: seq<Update>, u: Update)
    requires !InOrder(pushed)
    ensures !InOrder(pushed + [u])
  {
    var at: nat :| ReadAll(pushed, at) == Broken;
    ReadStep(pushed, u, at);
  }

  lemma ApplyPushes(s: Output, e: Event)
    ensures Apply(s, e).pushed == s.pushed
         || exists u :: Apply(s, e).pushed == s.pushed + [u]
  {
    hide Find;
  }

  lemma ReopeningBreaks(s: Output, e: Event)
    requires Faithful(s) && Reopens(s, e)
    ensures !InOrder(Apply(s, e).pushed)
  {
    var i := Find(s.content, Missing);
    assert Agrees(s.content[i], ReadAll(s.pushed, i)) && ReadAll(s.pushed, i).Complete?;
    var u := Apply(s, e).pushed[|s.pushed|];
    ReadStep(s.pushed, u, i);
    assert Apply(s, e).pushed == s.pushed + [u];
    assert ReadAll(Apply(s, e).pushed, i) == Broken;
  }

  /** The updates are in order exactly when no event without an index reached a block
      that had ended: each position one start, at most one end, and no delta behind it. */
  lemma {:induction false} InOrderExactly(events: seq<Event>)
    ensures InOrder(Fold(events).pushed) <==> NothingReopened(events)
  {
    if NothingReopened(events) {
      FoldIsFaithful(events);
      FaithfulIsInOrder(Fold(events));
    } else {
      hide Reopens, NothingReopened, InOrder, Faithful, Apply;
      NothingReopenedStep(events);
      var before, last := events[..|events| - 1], events[|events| - 1];
      InOrderExactly(before);
      if NothingReopened(before) {
        FoldIsFaithful(before);
        assert Reopens(Fold(before), last);
        ReopeningBreaks(Fold(before), last);
      } else {
        ApplyPushes(Fold(before), last);
        if Apply(Fold(before), last).pushed != Fold(before).pushed {
          var u :| Apply(Fold(before), last).pushed == Fold(before).pushed + [u];
          BrokenStays(Fold(before).pushed, u);
        }
      }
    }
  }

  lemma FaithfulIsInOrder(s: Output)
    requires Faithful(s)
    ensures InOrder(s.pushed)
  {
    forall at: nat
      ensures ReadAll(s.pushed, at) != Broken
    {
      assert at < |s.content| ==> Agrees(s.content[at], ReadAll(s.pushed, at));
    }
  }

  /** When every block event has a number, the reader ends up with exactly the message. */
  lemma NumberedStreamsAreFaithful(events: seq<Event>)
    requires forall k :: 0 <= k < |events| && (events[k].BlockDelta? || events[k].BlockStop?) ==>
               events[k].index.Number?
    ensures Faithful(Fold(events)) && InOrder(Fold(events).pushed)
  {
    FoldIsFaithful(events);
    FaithfulIsInOrder(Fold(events));
  }

  /** The order fails, for one, when a stop without an index follows the end of a block. */
  lemma MissingIndexEndsTwice()
    ensures var events := [BlockStart(Number(0), StartText), BlockStop(Number(0)), BlockStop(Missing)];
      Fold(events).pushed == [Started(TextKind, 0), Ended(TextKind, 0, ""), Ended(TextKind, 0, "")]
  {
    var events := [BlockStart(Number(0), StartText), BlockStop(Number(0)), BlockStop(Missing)];
    var one, two := events[..1], events[..2];
    assert one[..0] == [] && two[..1] == one && events[..2] == two;
    assert Fold(one) == Apply(EMPTY, events[0]);
    assert Fold(two) == Apply(Fold(one), events[1]);
    assert Fold(events) == Apply(Fold(two), events[2]);
  }

  /** The text an end announces is the text the block keeps. */
  ghost predicate EndsAreFinal(s: Output)
  {
    forall k :: 0 <= k < |s.pushed| && s.pushed[k].Ended? ==>
      && s.pushed[k].at < |s.content| && s.content[s.pushed[k].at].index.None?
      && s.content[s.pushed[k].at].Content() == s.pushed[k].content
  }

  lemma StepKeepsEnds(s: Output, e: Event)
    requires EndsAreFinal(s) && !Reopens(s, e)
    ensures EndsAreFinal(Apply(s, e))
  {
  }

  lemma {:induction false} EndedTextIsFinal(events: seq<Event>)
    requires NothingReopened(events)
    ensures EndsAreFinal(Fold(events))
  {
    if events != [] {
      var before := events[..|events| - 1];
      assert forall k :: 0 <= k < |before| ==> events[..k] == before[..k];
      EndedTextIsFinal(before);
      StepKeepsEnds(Fold(before), events[|events| - 1]);
    }
  }

  /** At every moment the total is the sum of its four parts. */
  lemma {:induction false} UsageAddsUp(events: seq<Event>)
    ensures var u := Fold(events).usage; u.totalTokens == u.input + u.output + u.cacheRead + u.cacheWrite
  {
    if events != [] {
      UsageAddsUp(events[..|events| - 1]);
    }
  }

  datatype Part = Input | OutputTokens | CacheRead | CacheWrite

  function CountOf(c: Counts, p: Part): Option<int>
  {
    match p
    case Input => c.input
    case OutputTokens => c.output
    case CacheRead => c.cacheRead
    case CacheWrite => c.cacheWrite
  }

  function UsedOf(u: Usage, p: Part): int
  {
    match p
    case Input => u.input
    case OutputTokens => u.output
    case CacheRead => u.cacheRead
    case CacheWrite => u.cacheWrite
  }

  /** What an event says of a part of the usage: the first event of a message says everything,
      what it leaves out is zero. */
  function Reported(e: Event, p: Part): Option<int>
  {
    match e
    case MessageStart(_, c) => Some(if CountOf(c, p).Some? then CountOf(c, p).value else 0)
    case MessageDelta(_, c) => CountOf(c, p)
    case _ => None
  }

  lemma OneReport(s: Output, e: Event, p: Part)
    ensures UsedOf(Apply(s, e).usage, p) == if Reported(e, p).Some? then Reported(e, p).value else UsedOf(s.usage, p)
  {
    hide Find, Extend, Close, NewBlock;
  }

  /** Each part of the usage is what was last reported of it, and zero before. */
  lemma {:induction false} LastCountCounts(events: seq<Event>, p: Part, k: nat)
    requires k <= |events|
    requires forall i :: k <= i < |events| ==> Reported(events[i], p).None?
    requires k > 0 ==> Reported(events[k - 1], p).Some?
    ensures UsedOf(Fold(events).usage, p) == if k == 0 then 0 else Reported(events[k - 1], p).value
    decreases |events|
  {
    hide Apply, Reported, UsedOf;
    if events != [] {
      var before := events[..|events| - 1];
      OneReport(Fold(before), events[|events| - 1], p);
      if k < |events| {
        LastCountCounts(before, p, k);
      }
    } else {
      NothingUsed(p);
    }
  }

  lemma NothingUsed(p: Part)
    ensures UsedOf(EMPTY.usage, p) == 0
  {
  }

  /** The response id is that of the last message that began. */
  lemma {:induction false} LastIdCounts(events: seq<Event>, k: nat)
    requires 0 < k <= |events| && events[k - 1].MessageStart?
    requires forall i :: k <= i < |events| ==> !events[i].MessageStart?
    ensures Fold(events).responseId == events[k - 1].id
    decreases |events|
  {
    hide Find, Extend, Close, NewBlock;
    if k < |events| {
      LastIdCounts(events[..|events| - 1], k);
    }
  }

  /** The last stop reason that was reported counts, and a message without one has stopped. */
  lemma {:induction false} LastReasonCounts(events: seq<Event>, k: nat)
    requires k <= |events|
    requires forall i :: k <= i < |events| ==> !(events[i].MessageDelta? && events[i].stop.Some?)
    requires k > 0 ==> events[k - 1].MessageDelta? && events[k - 1].stop.Some?
    ensures Fold(events).stopReason == if k == 0 then "stop" else MapStopReason(events[k - 1].stop.value)
    decreases |events|
  {
    if k < |events| {
      LastReasonCounts(events[..|events| - 1], k);
    }
  }

  // ----- from the incoming deltas to the block -----

  /** Where a delta belongs. */
  datatype Slot = TextSlot | ThinkingSlot | SignatureSlot | JsonSlot

  function DeltaText(slot: Slot, d: Delta): string
  {
    match (slot, d)
    case (TextSlot, TextDelta(s)) => s
    case (ThinkingSlot, ThinkingDelta(s)) => s
    case (SignatureSlot, SignatureDelta(s)) => s
    case (JsonSlot, JsonDelta(s)) => s
    case _ => ""
  }

  /** What the events send to number `n` up to its first stop, of this sort. */
  function Received(events: seq<Event>, n: int, slot: Slot): string
  {
    if events == [] || events[0] == BlockStop(Number(n)) then ""
    else if events[0].BlockDelta? && events[0].index == Number(n) then
      DeltaText(slot, events[0].delta) + Received(events[1..], n, slot)
    else Received(events[1..], n, slot)
  }

  /** A piece of tool arguments, which may be empty, is sent to number `n` before its stop. */
  predicate GetsJson(events: seq<Event>, n: int)
  {
    && events != [] && events[0] != BlockStop(Number(n))
    && ((events[0].BlockDelta? && events[0].index == Number(n) && events[0].delta.JsonDelta?)
        || GetsJson(events[1..], n))
  }

  /** The block made of a start and what was sent to it: the texts in order, redacted thinking behind
      its placeholder, signatures behind the redacted data, and a tool's id and name with the
      arguments it was started with, if none were sent, or parsed from all that were sent. */
  function Built(started: StartedBlock, sent: Slot -> string, json: bool, index: Option<int>): Block
    requires !started.StartOther?
  {
    match started
    case StartText => Text(sent(TextSlot), index)
    case StartThinking => Thinking(sent(ThinkingSlot), sent(SignatureSlot), false, index)
    case StartRedacted(data) => Thinking(REDACTED + sent(ThinkingSlot), data + sent(SignatureSlot), true, index)
    case StartTool(id, name, input) =>
      ToolCall(id, name, if json then Parsed(sent(JsonSlot)) else Given(input),
               if index.Some? then Some(sent(JsonSlot)) else None, index)
  }

  predicate Stopped(events: seq<Event>, n: int) { BlockStop(Number(n)) in events }

  function FoldFrom(s: Output, events: seq<Event>): Output
    decreases |events|
  {
    if events == [] then s else FoldFrom(Apply(s, events[0]), events[1..])
  }

  lemma {:induction false} FoldAppend(a: seq<Event>, b: seq<Event>)
    ensures Fold(a + b) == FoldFrom(Fold(a), b)
    decreases |b|
  {
    if b == [] {
      assert a + b == a;
    } else {
      assert a + b == (a + [b[0]]) + b[1..];
      assert (a + [b[0]])[..|a|] == a;
      FoldAppend(a + [b[0]], b[1..]);
    }
  }

  ghost predicate AllNumbered(events: seq<Event>)
  {
    forall k :: 0 <= k < |events| && (events[k].BlockDelta? || events[k].BlockStop?) ==> events[k].index.Number?
  }

  lemma {:induction false} EndedBlockStays(s: Output, j: nat, events: seq<Event>)
    requires j < |s.content| && s.content[j].index.None? && AllNumbered(events)
    ensures var c := FoldFrom(s, events).content; j < |c| && c[j] == s.content[j]
    decreases |events|
  {
    if events != [] {
      assert events[0] == events[0..][0];
      EndedBlockStays(Apply(s, events[0]), j, events[1..]);
    }
  }

  /** Block `j` is the one that events numbered `n` reach. */
  ghost predicate Addressed(content: seq<Block>, j: nat, n: int)
  {
    j < |content| && content[j].index == Some(n) && forall i :: 0 <= i < j ==> content[i].index != Some(n)
  }

  lemma DeltaArrives(s: Output, j: nat, n: int, started: StartedBlock, sent: Slot -> string, json: bool, d: Delta)
    requires Addressed(s.content, j, n) && !started.StartOther?
    requires s.content[j] == Built(started, sent, json, Some(n))
    ensures var c := Apply(s, BlockDelta(Number(n), d)).content;
      && Addressed(c, j, n)
      && c[j] == Built(started, slot => sent(slot) + DeltaText(slot, d), json || d.JsonDelta?, Some(n))
  {
    assert Find(s.content, Number(n)) == j;
    forall slot
      ensures sent(slot) + "" == sent(slot)
    {
    }
    if started.StartRedacted? {
      Regroup(REDACTED, sent(ThinkingSlot), DeltaText(ThinkingSlot, d));
      Regroup(started.data, sent(SignatureSlot), DeltaText(SignatureSlot, d));
    }
  }

  lemma StopArrives(s: Output, j: nat, n: int, started: StartedBlock, sent: Slot -> string, json: bool)
    requires Addressed(s.content, j, n) && !started.StartOther? && (!json ==> sent(JsonSlot) == "")
    requires s.content[j] == Built(started, sent, json, Some(n))
    ensures var c := Apply(s, BlockStop(Number(n))).content; j < |c| && c[j] == Built(started, sent, json, None)
  {
    assert Find(s.content, Number(n)) == j;
  }

  lemma BuiltSame(started: StartedBlock, a: Slot -> string, b: Slot -> string, json: bool, index: Option<int>)
    requires !started.StartOther? && forall slot :: a(slot) == b(slot)
    ensures Built(started, a, json, index) == Built(started, b, json, index)
  {
  }

  /** What `n` is sent arrives, in order, in the open block with that number. */
  lemma {:induction false} AddressedBlockReceives(s: Output, j: nat, n: int, started: StartedBlock,
                                                  sent: Slot -> string, json: bool, events: seq<Event>)
    requires Addressed(s.content, j, n) && AllNumbered(events) && !started.StartOther?
    requires (!json ==> sent(JsonSlot) == "") && s.content[j] == Built(started, sent, json, Some(n))
    ensures var c := FoldFrom(s, events).content;
      && j < |c|
      && c[j] == Built(started, slot => sent(slot) + Received(events, n, slot), json || GetsJson(events, n),
                       if Stopped(events, n) then None else Some(n))
    decreases |events|
  {
    hide Apply, Built, DeltaText;
    var all := slot => sent(slot) + Received(events, n, slot);
    if events == [] {
      BuiltSame(started, sent, all, json, Some(n));
    } else {
      var e, rest := events[0], events[1..];
      var next := Apply(s, e);
      assert events == [e] + rest;
      if e == BlockStop(Number(n)) {
        StopArrives(s, j, n, started, sent, json);
        forall slot
          ensures all(slot) == sent(slot)
        {
          NothingAdded(sent(slot));
        }
        StaysBuilt(next, j, started, sent, json, rest);
        BuiltSame(started, sent, all, json, None);
      } else if e.BlockDelta? && e.index == Number(n) {
        DeltaArrives(s, j, n, started, sent, json, e.delta);
        var now := slot => sent(slot) + DeltaText(slot, e.delta);
        NoJsonNoText(e.delta);
        AddressedBlockReceives(next, j, n, started, now, json || e.delta.JsonDelta?, rest);
        forall slot
          ensures now(slot) + Received(rest, n, slot) == all(slot)
        {
          Regroup(sent(slot), DeltaText(slot, e.delta), Received(rest, n, slot));
        }
        BuiltSame(started, slot => now(slot) + Received(rest, n, slot), all, json || GetsJson(events, n),
                  if Stopped(events, n) then None else Some(n));
      } else {
        OthersPassBy(s, j, n, e);
        AddressedBlockReceives(next, j, n, started, sent, json, rest);
        NotForIt(events, n);
        BuiltSame(started, slot => sent(slot) + Received(rest, n, slot), all, json || GetsJson(events, n),
                  if Stopped(events, n) then None else Some(n));
      }
    }
  }

  /** An event for another number is not received. */
  lemma NotForIt(events: seq<Event>, n: int)
    requires events != [] && events[0] != BlockStop(Number(n))
    requires !(events[0].BlockDelta? && events[0].index == Number(n))
    ensures forall slot :: Received(events, n, slot) == Received(events[1..], n, slot)
    ensures GetsJson(events, n) == GetsJson(events[1..], n)
  {
  }

  lemma NoJsonNoText(d: Delta)
    ensures !d.JsonDelta? ==> DeltaText(JsonSlot, d) == ""
  {
  }

  lemma StaysBuilt(s: Output, j: nat, started: StartedBlock, sent: Slot -> string, json: bool, events: seq<Event>)
    requires j < |s.content| && AllNumbered(events) && !started.StartOther?
    requires s.content[j] == Built(started, sent, json, None)
    ensures var c := FoldFrom(s, events).content; j < |c| && c[j] == Built(started, sent, json, None)
  {
    EndedBlockStays(s, j, events);
  }

  lemma OthersPassBy(s: Output, j: nat, n: int, e: Event)
    requires Addressed(s.content, j, n)
    requires (e.BlockDelta? || e.BlockStop?) ==> e.index.Number? && e.index.n != n
    ensures Addressed(Apply(s, e).content, j, n) && Apply(s, e).content[j] == s.content[j]
  {
  }

  /** A block is made of its start and exactly what its number was sent between its start and its
      stop, in order, whatever is interleaved. */
  lemma BlockHoldsItsDeltas(before: seq<Event>, n: int, started: StartedBlock, after: seq<Event>)
    requires !started.StartOther? && AllNumbered(after)
    requires forall i :: 0 <= i < |Fold(before).content| ==> Fold(before).content[i].index != Some(n)
    ensures var j, c := |Fold(before).content|, Fold(before + [BlockStart(Number(n), started)] + after).content;
      && j < |c|
      && c[j] == Built(started, slot => Received(after, n, slot), GetsJson(after, n),
                       if Stopped(after, n) then None else Some(n))
  {
    var e := BlockStart(Number(n), started);
    var s := Fold(before + [e]);
    assert (before + [e])[..|before|] == before;
    FoldAppend(before + [e], after);
    var none: Slot -> string := slot => "";
    assert REDACTED + "" == REDACTED && (started.StartRedacted? ==> started.data + "" == started.data);
    AddressedBlockReceives(s, |Fold(before).content|, n, started, none, false, after);
    BuiltSame(started, slot => none(slot) + Received(after, n, slot), slot => Received(after, n, slot),
              GetsJson(after, n), if Stopped(after, n) then None else Some(n));
  }

  /** The starts of blocks among the events. */
  function Starts(events: seq<Event>): nat
  {
    if events == [] then 0
    else
      var last := events[|events| - 1];
      Starts(events[..|events| - 1]) + if last.BlockStart? && !last.started.StartOther? then 1 else 0
  }

  /** The message has a block for each start and no other, so by `BlockHoldsItsDeltas` they come in
      the order of the starts. */
  lemma {:induction false} OneBlockPerStart(events: seq<Event>)
    ensures |Fold(events).content| == Starts(events)
  {
    hide Find, Extend, Close, Sign;
    if events != [] {
      OneBlockPerStart(events[..|events| - 1]);
    }
  }
}
