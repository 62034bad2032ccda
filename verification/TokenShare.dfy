/** Splitting a conversation into shares of about equal token count without parting a
    tool call from its result (`splitMessagesByTokenShare` in src/agents/compaction.ts). */
module TokenShare {
  import opened Collections
  import opened Messages

  /** A JavaScript number: the infinities and NaN are told apart from the finite ones. */
  datatype Number = NotFinite | Finite(value: real)

  function NormalizeParts(parts: Number, messageCount: nat): (n: nat)
    ensures 1 <= n && (n <= messageCount || n == 1)
    ensures parts.Finite? && parts.value >= 1.0 ==> n as real <= parts.value
    ensures parts.Finite? && 1.0 < parts.value && messageCount >= 1 ==>
              n == messageCount || n as real <= parts.value < n as real + 1.0
  {
    if parts.NotFinite? || parts.value <= 1.0 then 1
    else
      var wanted := if parts.value.Floor < 1 then 1 else parts.value.Floor;
      var most := if messageCount < 1 then 1 else messageCount;
      if wanted < most then wanted else most
  }

  /** An assistant message whose tool calls still wait for results. */
  predicate Live(m: Message)
  {
    m.Assistant? && m.stop == Completed && m.calls != []
  }

  function CallIds(m: Message): set<string>
    requires m.Assistant?
  {
    set id | id in m.calls
  }

  /** The loop's variables: finished chunks, current chunk and its tokens, ids of calls
      without a result yet, and where in the current chunk their assistant message is. */
  datatype Split = Split(
    chunks: seq<seq<Message>>,
    current: seq<Message>,
    currentTokens: nat,
    pending: set<string>,
    pendingStart: Option<nat>)

  /** The limits the loop compares with. */
  datatype Share = Share(estimate: Estimator, parts: nat, target: real)

  predicate MayCut(sh: Share, st: Split) { |st.chunks| < sh.parts - 1 }

  predicate Over(sh: Share, tokens: nat) { tokens as real > sh.target }

  function CutBefore(sh: Share, st: Split, m: Message): Split
  {
    if st.pending == {} && MayCut(sh, st) && st.current != [] && Over(sh, st.currentTokens + sh.estimate(m))
    then Split(st.chunks + [st.current], [], 0, {}, None)
    else st
  }

  /** `splitCurrentAtPendingBoundary`. */
  function CutAtPending(sh: Share, st: Split): Split
  {
    if st.pendingStart.None? || st.pendingStart.value == 0 || st.pendingStart.value > |st.current| || !MayCut(sh, st)
    then st
    else
      var rest := st.current[st.pendingStart.value..];
      Split(st.chunks + [st.current[..st.pendingStart.value]], rest, Tokens(sh.estimate, rest), st.pending, Some(0))
  }

  function Join(sh: Share, st: Split, m: Message): Split
  {
    st.(current := st.current + [m], currentTokens := st.currentTokens + sh.estimate(m))
  }

  /** What the message does to the calls being waited for. */
  function Note(sh: Share, st: Split, m: Message): Split
  {
    if m.Assistant? then
      if Live(m)
      then st.(pending := CallIds(m), pendingStart := if st.current == [] then None else Some(|st.current| - 1))
      else st.(pending := {}, pendingStart := None)
    else if m.ToolResult? && st.pending != {} then
      var noted := if m.callId.None? then st.(pending := {}, pendingStart := None)
                   else st.(pending := st.pending - {m.callId.value});
      if noted.pending == {} && MayCut(sh, noted) && Over(sh, noted.currentTokens)
      then CutAtPending(sh, noted).(pendingStart := None)
      else noted
    else st
  }

  function SplitStep(sh: Share, st: Split, m: Message): Split
  {
    Note(sh, Join(sh, CutBefore(sh, st, m), m), m)
  }

  function SplitAll(sh: Share, st: Split, messages: seq<Message>): Split
    decreases |messages|
  {
    if messages == [] then st else SplitAll(sh, SplitStep(sh, st, messages[0]), messages[1..])
  }

  function FinishSplit(sh: Share, st: Split): seq<seq<Message>>
  {
    var last := if st.pending != {} && Over(sh, st.currentTokens) then CutAtPending(sh, st) else st;
    if last.current != [] then last.chunks + [last.current] else last.chunks
  }

  const START := Split([], [], 0, {}, None)

  /** The chunks `splitMessagesByTokenShare` returns. */
  function SplitByTokenShare(estimate: Estimator, messages: seq<Message>, parts: Number): seq<seq<Message>>
  {
    if messages == [] then []
    else
      var n := NormalizeParts(parts, |messages|);
      if n <= 1 then [messages]
      else
        var sh := Share(estimate, n, Tokens(estimate, messages) as real / n as real);
        FinishSplit(sh, SplitAll(sh, START, messages))
  }

  method SplitMessagesByTokenShare(estimate: Estimator, messages: seq<Message>, parts: Number)
    returns (chunks: seq<seq<Message>>)
    ensures chunks == SplitByTokenShare(estimate, messages, parts)
  {
    if |messages| == 0 {
      return [];
    }
    var normalizedParts := NormalizeParts(parts, |messages|);
    if normalizedParts <= 1 {
      return [messages];
    }
    var totalTokens := Tokens(estimate, messages);
    var targetTokens := totalTokens as real / normalizedParts as real;
    var sh := Share(estimate, normalizedParts, targetTokens);
    chunks := [];
    var current: seq<Message> := [];
    var currentTokens := 0;
    var pendingToolCallIds: set<string> := {};
    var pendingChunkStartIndex: Option<nat> := None;
    ghost var st := START;
    var i := 0;
    while i < |messages|
      invariant 0 <= i <= |messages|
      invariant st == Split(chunks, current, currentTokens, pendingToolCallIds, pendingChunkStartIndex)
      invariant SplitAll(sh, st, messages[i..]) == SplitAll(sh, START, messages)
    {
      SplitAllTakes(sh, st, messages, i);
      chunks, current, currentTokens, pendingToolCallIds, pendingChunkStartIndex :=
        TakeMessage(sh, messages[i], chunks, current, currentTokens, pendingToolCallIds, pendingChunkStartIndex);
      st := SplitStep(sh, st, messages[i]);
      i := i + 1;
    }
    if pendingToolCallIds != {} && currentTokens as real > targetTokens {
      chunks, current, currentTokens, pendingChunkStartIndex :=
        SplitCurrentAtPendingBoundary(sh, chunks, current, currentTokens, pendingToolCallIds, pendingChunkStartIndex);
    }
    if current != [] {
      chunks := chunks + [current];
    }
  }

  /** The body of the loop over the messages. */
  method TakeMessage(sh: Share, message: Message, chunks: seq<seq<Message>>, current: seq<Message>,
      currentTokens: nat, pending: set<string>, start: Option<nat>)
    returns (chunks': seq<seq<Message>>, current': seq<Message>, currentTokens': nat, pending': set<string>,
             start': Option<nat>)
    ensures Split(chunks', current', currentTokens', pending', start')
         == SplitStep(sh, Split(chunks, current, currentTokens, pending, start), message)
  {
    chunks', current', currentTokens', pending', start' := chunks, current, currentTokens, pending, start;
    var messageTokens := sh.estimate(message);
    if pending == {} && |chunks| < sh.parts - 1 && current != []
       && (currentTokens + messageTokens) as real > sh.target {
      chunks' := chunks + [current];
      current' := [];
      currentTokens' := 0;
      start' := None;
    }
    current' := current' + [message];
    currentTokens' := currentTokens' + messageTokens;
    assert Split(chunks', current', currentTokens', pending', start')
        == Join(sh, CutBefore(sh, Split(chunks, current, currentTokens, pending, start), message), message);
    chunks', current', currentTokens', pending', start' :=
      NoteMessage(sh, message, chunks', current', currentTokens', pending', start');
  }

  lemma SplitAllTakes(sh: Share, st: Split, messages: seq<Message>, i: nat)
    requires i < |messages|
    ensures SplitAll(sh, st, messages[i..]) == SplitAll(sh, SplitStep(sh, st, messages[i]), messages[i + 1..])
  {
    assert messages[i..][0] == messages[i] && messages[i..][1..] == messages[i + 1..];
  }

  /** The end of the loop's body: what the message, just added to the current chunk, does
      to the calls being waited for. */
  method NoteMessage(sh: Share, message: Message, chunks: seq<seq<Message>>, current: seq<Message>,
      currentTokens: nat, pending: set<string>, start: Option<nat>)
    returns (chunks': seq<seq<Message>>, current': seq<Message>, currentTokens': nat, pending': set<string>,
             start': Option<nat>)
    requires current != []
    ensures Split(chunks', current', currentTokens', pending', start')
         == Note(sh, Split(chunks, current, currentTokens, pending, start), message)
  {
    chunks', current', currentTokens', pending', start' := chunks, current, currentTokens, pending, start;
    if message.Assistant? {
      var keepsPending := message.stop == Completed && |message.calls| > 0;
      pending' := if keepsPending then CallIds(message) else {};
      start' := if keepsPending then Some(|current| - 1) else None;
    } else if message.ToolResult? && pending != {} {
      if message.callId.None? {
        pending' := {};
        start' := None;
      } else {
        pending' := pending - {message.callId.value};
      }
      if pending' == {} && |chunks| < sh.parts - 1 && currentTokens as real > sh.target {
        chunks', current', currentTokens', start' :=
          SplitCurrentAtPendingBoundary(sh, chunks, current, currentTokens, pending', start');
        start' := None;
      }
    }
  }

  method SplitCurrentAtPendingBoundary(sh: Share, chunks: seq<seq<Message>>, current: seq<Message>,
      currentTokens: nat, ghost pending: set<string>, pendingChunkStartIndex: Option<nat>)
    returns (chunks': seq<seq<Message>>, current': seq<Message>, currentTokens': nat, start: Option<nat>)
    ensures Split(chunks', current', currentTokens', pending, start)
         == CutAtPending(sh, Split(chunks, current, currentTokens, pending, pendingChunkStartIndex))
  {
    chunks', current', currentTokens', start := chunks, current, currentTokens, pendingChunkStartIndex;
    if pendingChunkStartIndex.None? || pendingChunkStartIndex.value == 0
       || pendingChunkStartIndex.value > |current| || |chunks| >= sh.parts - 1 {
      return;
    }
    chunks' := chunks + [current[..pendingChunkStartIndex.value]];
    current' := current[pendingChunkStartIndex.value..];
    currentTokens' := Tokens(sh.estimate, current');
    start := Some(0);
  }

  // ----- what a split is -----

  /** Message `r` is the first result of a call of the live assistant message `a`, with
      no other assistant message and no result without id between them. */
  ghost predicate Protected(messages: seq<Message>, a: int, r: int)
  {
    && 0 <= a < r < |messages|
    && Live(messages[a]) && messages[r].ToolResult? && messages[r].callId.Some?
    && messages[r].callId.value in messages[a].calls
    && (forall j :: a < j < r ==>
          !messages[j].Assistant?
          && (messages[j].ToolResult? ==> messages[j].callId.Some? && messages[j].callId != messages[r].callId))
  }

  /** Cutting before message `b` parts no protected pair. */
  ghost predicate SafeCut(messages: seq<Message>, b: int)
  {
    forall a, r :: a < b <= r ==> !Protected(messages, a, r)
  }

  ghost predicate SafeCuts(messages: seq<Message>, chunks: seq<seq<Message>>)
  {
    forall c :: 0 <= c <= |chunks| ==> SafeCut(messages, |Flatten(chunks[..c])|)
  }

  /** The ids waited for after some messages, as the loop computes them. */
  function Waiting(messages: seq<Message>): set<string>
  {
    if messages == [] then {}
    else
      var before, m := Waiting(messages[..|messages| - 1]), messages[|messages| - 1];
      if m.Assistant? then (if Live(m) then CallIds(m) else {})
      else if m.ToolResult? then (if m.callId.None? then {} else before - {m.callId.value})
      else before
  }

  /** Between a call and its protected result, the call's id is waited for. */
  lemma {:induction false} ProtectedIsWaitedFor(messages: seq<Message>, a: int, r: int, i: nat)
    requires Protected(messages, a, r) && a < i <= r
    ensures messages[r].callId.value in Waiting(messages[..i])
  {
    assert messages[..i][..i - 1] == messages[..i - 1];
    if i - 1 > a {
      ProtectedIsWaitedFor(messages, a, r, i - 1);
    }
  }

  lemma NothingWaitedIsSafe(messages: seq<Message>, i: nat)
    requires i <= |messages| && Waiting(messages[..i]) == {}
    ensures SafeCut(messages, i)
  {
    forall a, r | a < i <= r
      ensures !Protected(messages, a, r)
    {
      if Protected(messages, a, r) {
        ProtectedIsWaitedFor(messages, a, r, i);
      }
    }
  }

  lemma BeforeAssistantIsSafe(messages: seq<Message>, i: nat)
    requires i < |messages| && messages[i].Assistant?
    ensures SafeCut(messages, i)
  {
  }

  /** What holds after the loop has taken the first `i` messages. */
  ghost predicate SplitOk(sh: Share, messages: seq<Message>, i: nat, st: Split)
    requires i <= |messages|
  {
    && Flatten(st.chunks) + st.current == messages[..i]
    && (forall c :: 0 <= c < |st.chunks| ==> st.chunks[c] != [])
    && |st.chunks| <= sh.parts - 1
    && st.pending == Waiting(messages[..i])
    && (st.pending != {} ==> st.pendingStart.Some?)
    && (st.pendingStart.Some? ==> st.pendingStart.value < |st.current| && st.current[st.pendingStart.value].Assistant?)
    && st.currentTokens == Tokens(sh.estimate, st.current)
    && SafeCuts(messages, st.chunks)
    && (i > 0 ==> st.current != [])
  }

  lemma PushSafe(messages: seq<Message>, chunks: seq<seq<Message>>, chunk: seq<Message>)
    requires SafeCuts(messages, chunks) && SafeCut(messages, |Flatten(chunks)| + |chunk|)
    ensures SafeCuts(messages, chunks + [chunk]) && Flatten(chunks + [chunk]) == Flatten(chunks) + chunk
  {
    hide SafeCut, Flatten;
    FlattenSnoc(chunks, chunk);
    forall c | 0 <= c <= |chunks| + 1
      ensures SafeCut(messages, |Flatten((chunks + [chunk])[..c])|)
    {
      if c <= |chunks| {
        assert (chunks + [chunk])[..c] == chunks[..c];
      } else {
        assert (chunks + [chunk])[..c] == chunks + [chunk];
      }
    }
  }

  lemma CutBeforeKeeps(sh: Share, messages: seq<Message>, i: nat, st: Split)
    requires i < |messages| && SplitOk(sh, messages, i, st)
    ensures var cut := CutBefore(sh, st, messages[i]);
      && Flatten(cut.chunks) + cut.current == messages[..i]
      && (forall c :: 0 <= c < |cut.chunks| ==> cut.chunks[c] != [])
      && |cut.chunks| <= sh.parts - 1
      && cut.pending == Waiting(messages[..i])
      && (cut.pending != {} ==> cut.pendingStart.Some?)
      && (cut.pendingStart.Some?
          ==> cut.pendingStart.value < |cut.current| && cut.current[cut.pendingStart.value].Assistant?)
      && cut.currentTokens == Tokens(sh.estimate, cut.current)
      && SafeCuts(messages, cut.chunks)
  {
    if CutBefore(sh, st, messages[i]) != st {
      NothingWaitedIsSafe(messages, i);
      assert |Flatten(st.chunks)| + |st.current| == i;
      PushSafe(messages, st.chunks, st.current);
    }
  }

  lemma PendingCutIsSafe(messages: seq<Message>, i: nat, chunks: seq<seq<Message>>, current: seq<Message>, k: nat)
    requires i <= |messages| && Flatten(chunks) + current == messages[..i]
    requires k < |current| && current[k].Assistant? && SafeCuts(messages, chunks)
    ensures SafeCuts(messages, chunks + [current[..k]])
    ensures Flatten(chunks + [current[..k]]) + current[k..] == messages[..i]
  {
    var b := |Flatten(chunks)| + k;
    assert (Flatten(chunks) + current)[b] == current[k];
    BeforeAssistantIsSafe(messages, b);
    PushSafe(messages, chunks, current[..k]);
    assert current == current[..k] + current[k..];
  }

  /** A cut before the assistant message being waited on. */
  lemma CutAtPendingKeeps(sh: Share, messages: seq<Message>, i: nat, st: Split)
    requires i <= |messages| && SplitOk(sh, messages, i, st)
    ensures SplitOk(sh, messages, i, CutAtPending(sh, st))
  {
    var cut := CutAtPending(sh, st);
    if cut != st {
      var k := st.pendingStart.value;
      PendingCutIsSafe(messages, i, st.chunks, st.current, k);
      assert cut.chunks == st.chunks + [st.current[..k]] && cut.current == st.current[k..];
    }
  }

  lemma StepKeeps(sh: Share, messages: seq<Message>, i: nat, st: Split)
    requires i < |messages| && SplitOk(sh, messages, i, st)
    ensures SplitOk(sh, messages, i + 1, SplitStep(sh, st, messages[i]))
  {
    var m := messages[i];
    CutBeforeKeeps(sh, messages, i, st);
    var cut := CutBefore(sh, st, m);
    var joined := Join(sh, cut, m);
    TokensSnoc(sh.estimate, cut.current, m);
    assert messages[..i + 1] == messages[..i] + [m] && messages[..i + 1][..i] == messages[..i];
    assert Flatten(joined.chunks) + joined.current == messages[..i + 1];
    NoteKeeps(sh, messages, i, joined);
  }

  lemma NoteKeeps(sh: Share, messages: seq<Message>, i: nat, joined: Split)
    requires i < |messages| && joined.current != [] && joined.current[|joined.current| - 1] == messages[i]
    requires Flatten(joined.chunks) + joined.current == messages[..i + 1]
    requires forall c :: 0 <= c < |joined.chunks| ==> joined.chunks[c] != []
    requires |joined.chunks| <= sh.parts - 1 && SafeCuts(messages, joined.chunks)
    requires joined.pending == Waiting(messages[..i])
    requires joined.pending != {} ==> joined.pendingStart.Some?
    requires joined.pendingStart.Some? ==>
               joined.pendingStart.value < |joined.current| && joined.current[joined.pendingStart.value].Assistant?
    requires joined.currentTokens == Tokens(sh.estimate, joined.current)
    ensures SplitOk(sh, messages, i + 1, Note(sh, joined, messages[i]))
  {
    var m := messages[i];
    assert messages[..i + 1][..i] == messages[..i] && messages[..i + 1][i] == m;
    if m.ToolResult? && joined.pending != {} {
      var noted := if m.callId.None? then joined.(pending := {}, pendingStart := None)
                   else joined.(pending := joined.pending - {m.callId.value});
      assert SplitOk(sh, messages, i + 1, noted);
      CutAtPendingKeeps(sh, messages, i + 1, noted);
    } else if Live(m) {
      assert m.calls[0] in CallIds(m);
    }
  }

  lemma {:induction false} AllKeeps(sh: Share, messages: seq<Message>, i: nat, st: Split)
    requires i <= |messages| && SplitOk(sh, messages, i, st)
    ensures SplitOk(sh, messages, |messages|, SplitAll(sh, st, messages[i..]))
    decreases |messages| - i
  {
    if i < |messages| {
      assert messages[i..][0] == messages[i] && messages[i..][1..] == messages[i + 1..];
      StepKeeps(sh, messages, i, st);
      AllKeeps(sh, messages, i + 1, SplitStep(sh, st, messages[i]));
    }
  }

  /** The chunks are non-empty, at most as many as asked for, and one after the other
      they are the input; and no cut parts a protected call from its result. */
  lemma SplitIsSafePartition(estimate: Estimator, messages: seq<Message>, parts: Number)
    ensures var chunks := SplitByTokenShare(estimate, messages, parts);
      && Flatten(chunks) == messages
      && (forall c :: 0 <= c < |chunks| ==> chunks[c] != [])
      && |chunks| <= NormalizeParts(parts, |messages|)
      && SafeCuts(messages, chunks)
  {
    hide SplitAll, SplitOk, FinishSplit, SafeCuts, Flatten;
    if messages == [] {
      NoChunksAreSafe();
    } else {
      var n := NormalizeParts(parts, |messages|);
      if n <= 1 {
        WholeIsSafe(messages);
      } else {
        var sh := Share(estimate, n, Tokens(estimate, messages) as real / n as real);
        StartIsOk(sh, messages);
        assert messages[0..] == messages;
        AllKeeps(sh, messages, 0, START);
        FinishIsSafe(sh, messages, SplitAll(sh, START, messages));
      }
    }
  }

  lemma NoChunksAreSafe()
    ensures SafeCuts([], []) && Flatten<Message>([]) == []
  {
  }

  lemma StartIsOk(sh: Share, messages: seq<Message>)
    requires sh.parts >= 1
    ensures SplitOk(sh, messages, 0, START)
  {
    NothingWaitedIsSafe(messages, 0);
  }

  lemma FinishIsSafe(sh: Share, messages: seq<Message>, st: Split)
    requires messages != [] && SplitOk(sh, messages, |messages|, st)
    ensures var chunks := FinishSplit(sh, st);
      && Flatten(chunks) == messages
      && (forall c :: 0 <= c < |chunks| ==> chunks[c] != [])
      && |chunks| <= sh.parts
      && SafeCuts(messages, chunks)
  {
    hide CutAtPending, SafeCut, SafeCuts, Flatten;
    CutAtPendingKeeps(sh, messages, |messages|, st);
    var last := if st.pending != {} && Over(sh, st.currentTokens) then CutAtPending(sh, st) else st;
    EndIsSafe(messages);
    assert messages[..|messages|] == messages;
    PushSafe(messages, last.chunks, last.current);
  }

  lemma EndIsSafe(messages: seq<Message>)
    ensures SafeCut(messages, |messages|) && SafeCut(messages, 0)
  {
  }

  lemma WholeIsSafe(messages: seq<Message>)
    ensures SafeCuts(messages, [messages]) && Flatten([messages]) == messages
  {
    FlattenSingle(messages);
    EndIsSafe(messages);
    forall c | 0 <= c <= 1
      ensures SafeCut(messages, |Flatten([messages][..c])|)
    {
      assert [messages][..c] == if c == 0 then [] else [messages];
    }
  }

  // ----- call and result in one chunk -----

  /** The chunk that position `i` of the flattened chunks lies in. */
  function ChunkOf(chunks: seq<seq<Message>>, i: nat): (c: nat)
    requires i < |Flatten(chunks)|
    ensures c < |chunks|
  {
    if i < |chunks[0]| then 0 else 1 + ChunkOf(chunks[1..], i - |chunks[0]|)
  }

  lemma {:induction false} ChunkOfBounds(chunks: seq<seq<Message>>, i: nat)
    requires i < |Flatten(chunks)|
    ensures var c := ChunkOf(chunks, i); |Flatten(chunks[..c])| <= i < |Flatten(chunks[..c + 1])|
  {
    assert Flatten(chunks) == chunks[0] + Flatten(chunks[1..]);
    if i < |chunks[0]| {
      assert chunks[..0] == [] && chunks[..1] == [chunks[0]];
      FlattenSingle(chunks[0]);
    } else {
      ChunkOfBounds(chunks[1..], i - |chunks[0]|);
      var c := ChunkOf(chunks[1..], i - |chunks[0]|);
      assert chunks[..c + 1] == [chunks[0]] + chunks[1..][..c];
      assert chunks[..c + 2] == [chunks[0]] + chunks[1..][..c + 1];
      FlattenAppend([chunks[0]], chunks[1..][..c]);
      FlattenAppend([chunks[0]], chunks[1..][..c + 1]);
      FlattenSingle(chunks[0]);
    }
  }

  lemma PrefixesGrow(chunks: seq<seq<Message>>, c: nat, d: nat)
    requires c <= d <= |chunks|
    ensures |Flatten(chunks[..c])| <= |Flatten(chunks[..d])|
  {
    assert chunks[..d] == chunks[..c] + chunks[c..d];
    FlattenAppend(chunks[..c], chunks[c..d]);
  }

  /** A live tool call and its first result end up in the same chunk, unless another
      assistant message or a result without id comes between them. */
  lemma CallStaysWithResult(estimate: Estimator, messages: seq<Message>, parts: Number, a: int, r: int)
    requires Protected(messages, a, r)
    ensures var chunks := SplitByTokenShare(estimate, messages, parts);
      Flatten(chunks) == messages && ChunkOf(chunks, a) == ChunkOf(chunks, r)
  {
    SplitIsSafePartition(estimate, messages, parts);
    var chunks := SplitByTokenShare(estimate, messages, parts);
    if ChunkOf(chunks, a) != ChunkOf(chunks, r) {
      var d := DifferentChunksAreCut(chunks, a, r);
      assert false;
    }
  }

  lemma DifferentChunksAreCut(chunks: seq<seq<Message>>, a: nat, r: nat) returns (d: nat)
    requires a < r < |Flatten(chunks)| && ChunkOf(chunks, a) != ChunkOf(chunks, r)
    ensures d <= |chunks| && a < |Flatten(chunks[..d])| <= r
  {
    ChunkOfBounds(chunks, a);
    ChunkOfBounds(chunks, r);
    var c := ChunkOf(chunks, a);
    d := ChunkOf(chunks, r);
    if c < d {
      PrefixesGrow(chunks, c + 1, d);
    } else {
      PrefixesGrow(chunks, d + 1, c);
    }
  }
}
