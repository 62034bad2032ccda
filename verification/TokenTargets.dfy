/** How the shares of a conversation keep to their target: every cut is needed, and no needed
    cut is left out (`splitMessagesByTokenShare` in src/agents/compaction.ts). */
module TokenTargets {
  import opened Collections
  import opened Messages
  import opened TokenShare

  // ----- what waits -----

  /** A live assistant message, no assistant message behind it, calls `id`, and neither a result
      with that id nor one without any id has come since. */
  ghost predicate WaitedFor(messages: seq<Message>, id: string)
  {
    exists a :: 0 <= a < |messages| && Live(messages[a]) && id in messages[a].calls
                && forall j :: a < j < |messages| ==>
                     !messages[j].Assistant? && (messages[j].ToolResult? ==>
                       messages[j].callId.Some? && messages[j].callId.value != id)
  }

  lemma WaitingSnoc(before: seq<Message>, m: Message)
    ensures Waiting(before + [m]) ==
      if m.Assistant? then (if Live(m) then CallIds(m) else {})
      else if m.ToolResult? then (if m.callId.None? then {} else Waiting(before) - {m.callId.value})
      else Waiting(before)
  {
    assert (before + [m])[..|before|] == before;
  }

  lemma WaitedForSnoc(before: seq<Message>, m: Message, id: string)
    ensures WaitedFor(before + [m], id) <==>
      if m.Assistant? then Live(m) && id in m.calls
      else WaitedFor(before, id) && (m.ToolResult? ==> m.callId.Some? && m.callId.value != id)
  {
    var all := before + [m];
    if m.Assistant? {
      assert all[|before|] == m;
    } else if WaitedFor(before, id) && (m.ToolResult? ==> m.callId.Some? && m.callId.value != id) {
      var a :| 0 <= a < |before| && Live(before[a]) && id in before[a].calls
               && forall j :: a < j < |before| ==>
                    !before[j].Assistant? && (before[j].ToolResult? ==>
                      before[j].callId.Some? && before[j].callId.value != id);
      assert all[a] == before[a];
    } else if WaitedFor(all, id) {
      StillWaitedFor(before, m, id);
    }
  }

  lemma StillWaitedFor(before: seq<Message>, m: Message, id: string)
    requires !m.Assistant? && WaitedFor(before + [m], id)
    ensures WaitedFor(before, id) && (m.ToolResult? ==> m.callId.Some? && m.callId.value != id)
  {
    var all := before + [m];
    var a :| 0 <= a < |all| && Live(all[a]) && id in all[a].calls
             && forall j :: a < j < |all| ==>
                  !all[j].Assistant? && (all[j].ToolResult? ==> all[j].callId.Some? && all[j].callId.value != id);
    assert all[|before|] == m && a < |before| && before[a] == all[a];
    forall j | a < j < |before|
      ensures before[j] == all[j]
    {
    }
  }

  /** What the loop waits for is what is waited for. */
  lemma {:induction false} WaitingMeans(messages: seq<Message>, id: string)
    ensures id in Waiting(messages) <==> WaitedFor(messages, id)
    decreases |messages|
  {
    hide Live, WaitedFor;
    if messages == [] {
      NothingWaits(id);
    } else {
      var before, m := messages[..|messages| - 1], messages[|messages| - 1];
      assert messages == before + [m];
      WaitingMeans(before, id);
      WaitingSnoc(before, m);
      WaitedForSnoc(before, m, id);
    }
  }

  lemma NothingWaits(id: string)
    ensures !WaitedFor([], id)
  {
  }

  // ----- needed cuts -----

  /** A live call and what follows it, up to some later message. */
  ghost predicate CallGroup(messages: seq<Message>)
  {
    messages != [] && Live(messages[0]) && forall i :: 1 <= i < |messages| ==> !messages[i].Assistant?
  }

  /** The first message behind the cut, or a call group there, would take the chunk in front of
      the cut over the target. */
  ghost predicate Needed(sh: Share, a: seq<Message>, b: seq<Message>)
  {
    exists g :: 1 <= g <= |b| && Over(sh, Tokens(sh.estimate, a + b[..g])) && (g == 1 || CallGroup(b[..g]))
  }

  lemma NeededMore(sh: Share, a: seq<Message>, b: seq<Message>, more: seq<Message>)
    requires Needed(sh, a, b)
    ensures Needed(sh, a, b + more)
  {
    hide CallGroup, Over;
    var g :| 1 <= g <= |b| && Over(sh, Tokens(sh.estimate, a + b[..g])) && (g == 1 || CallGroup(b[..g]));
    assert (b + more)[..g] == b[..g];
  }

  lemma NeededTogether(sh: Share, a: seq<Message>, b: seq<Message>)
    requires Needed(sh, a, b)
    ensures Over(sh, Tokens(sh.estimate, a) + Tokens(sh.estimate, b))
  {
    var g :| 1 <= g <= |b| && Over(sh, Tokens(sh.estimate, a + b[..g])) && (g == 1 || CallGroup(b[..g]));
    TokensAppend(sh.estimate, a, b[..g]);
    TokensAppend(sh.estimate, b[..g], b[g..]);
    PutTogether(b, g);
  }

  // ----- no needed cut left out -----

  /** The `q`th message is the result that ends the waiting for the calls of an assistant message
      of the chunk, not its first message. */
  ghost predicate Closes(chunk: seq<Message>, q: nat)
    requires q < |chunk|
  {
    && chunk[q].ToolResult? && chunk[q].callId.Some?
    && Waiting(chunk[..q]) != {} && Waiting(chunk[..q + 1]) == {}
    && exists j :: 1 <= j < q && chunk[j].Assistant?
  }

  /** A message that is added while nothing waits, or a result that ends the waiting: the chunk
      could be cut in front of it, or in front of its call. */
  ghost predicate Cuttable(chunk: seq<Message>, q: nat)
    requires q < |chunk|
  {
    Waiting(chunk[..q]) == {} || Closes(chunk, q)
  }

  ghost predicate FitsAt(sh: Share, chunk: seq<Message>, q: nat)
    requires q < |chunk|
  {
    Cuttable(chunk, q) ==> !Over(sh, Tokens(sh.estimate, chunk[..q + 1]))
  }

  lemma FitsInFront(sh: Share, front: seq<Message>, more: seq<Message>, q: nat)
    requires q < |front|
    ensures FitsAt(sh, front, q) <==> FitsAt(sh, front + more, q)
  {
    hide Waiting, Over;
    var chunk := front + more;
    assert front[..q] == chunk[..q] && front[..q + 1] == chunk[..q + 1];
  }

  /** Where a chunk could be cut, it is within the target. */
  ghost predicate NotOverfull(sh: Share, chunk: seq<Message>)
  {
    forall q :: 1 <= q < |chunk| ==> FitsAt(sh, chunk, q)
  }

  lemma PrefixNotOverfull(sh: Share, chunk: seq<Message>, n: nat)
    requires n <= |chunk| && NotOverfull(sh, chunk)
    ensures NotOverfull(sh, chunk[..n])
  {
    hide FitsAt;
    PutTogether(chunk, n);
    forall q | 1 <= q < n
      ensures FitsAt(sh, chunk[..n], q)
    {
      FitsInFront(sh, chunk[..n], chunk[n..], q);
    }
  }

  lemma NotOverfullSnoc(sh: Share, chunk: seq<Message>, m: Message)
    requires NotOverfull(sh, chunk)
    requires chunk != [] && Cuttable(chunk + [m], |chunk|) ==> !Over(sh, Tokens(sh.estimate, chunk + [m]))
    ensures NotOverfull(sh, chunk + [m])
  {
    hide FitsAt;
    forall q | 1 <= q < |chunk + [m]|
      ensures FitsAt(sh, chunk + [m], q)
    {
      if q < |chunk| {
        FitsInFront(sh, chunk, [m], q);
      } else {
        FitsAtEnd(sh, chunk, m);
      }
    }
  }

  lemma FitsAtEnd(sh: Share, chunk: seq<Message>, m: Message)
    requires Cuttable(chunk + [m], |chunk|) ==> !Over(sh, Tokens(sh.estimate, chunk + [m]))
    ensures FitsAt(sh, chunk + [m], |chunk|)
  {
    hide Cuttable, Over;
    assert (chunk + [m])[..|chunk| + 1] == chunk + [m];
  }

  // ----- the loop -----

  /** The last assistant message. */
  ghost predicate LastCall(messages: seq<Message>, p: nat)
  {
    p < |messages| && Live(messages[p]) && forall j :: p < j < |messages| ==> !messages[j].Assistant?
  }

  /** What the loop keeps: what waits is what the current chunk waits for, and its place is that
      of the last assistant message; the chunks are not overfull, the current one as long as
      another may be begun; and every cut was needed, also if the current chunk is cut at its
      pending boundary. */
  ghost predicate TargetOk(sh: Share, st: Split)
  {
    && st.currentTokens == Tokens(sh.estimate, st.current)
    && st.pending == Waiting(st.current)
    && (st.pending != {} ==> st.pendingStart.Some? && LastCall(st.current, st.pendingStart.value))
    && (forall c :: 0 <= c < |st.chunks| ==> NotOverfull(sh, st.chunks[c]))
    && (MayCut(sh, st) ==> NotOverfull(sh, st.current))
    && (forall c :: 0 <= c < |st.chunks| - 1 ==> Needed(sh, st.chunks[c], st.chunks[c + 1]))
    && (st.chunks != [] ==>
          && Needed(sh, st.chunks[|st.chunks| - 1], st.current)
          && (st.pendingStart.Some? && 0 < st.pendingStart.value <= |st.current| ==>
                Needed(sh, st.chunks[|st.chunks| - 1], st.current[..st.pendingStart.value])))
  }

  lemma StartOnTarget(sh: Share)
    ensures TargetOk(sh, START)
  {
  }

  /** Between the cut in front of a message and the message: the current chunk may be empty, if
      the message was needed for the cut. */
  ghost predicate CutOk(sh: Share, st: Split, m: Message)
  {
    TargetOk(sh, st) || (
      && st.current == [] && st.currentTokens == 0 && st.pending == {} && st.pendingStart == None && st.chunks != []
      && (forall c :: 0 <= c < |st.chunks| ==> NotOverfull(sh, st.chunks[c]))
      && (forall c :: 0 <= c < |st.chunks| - 1 ==> Needed(sh, st.chunks[c], st.chunks[c + 1]))
      && Needed(sh, st.chunks[|st.chunks| - 1], [m]))
  }

  lemma CutBeforeOnTarget(sh: Share, st: Split, m: Message)
    requires TargetOk(sh, st)
    ensures CutOk(sh, CutBefore(sh, st, m), m)
    ensures var cut := CutBefore(sh, st, m);
      cut.pending == {} && MayCut(sh, cut) && cut.current != [] ==> !Over(sh, Tokens(sh.estimate, cut.current + [m]))
  {
    hide NotOverfull, Needed, LastCall, Waiting, Over;
    TokensSnoc(sh.estimate, st.current, m);
    if CutBefore(sh, st, m) != st {
      NeededByOne(sh, st.current, m);
      CutsSnoc(sh, st.chunks, st.current);
    }
  }

  lemma NeededByOne(sh: Share, a: seq<Message>, m: Message)
    requires Over(sh, Tokens(sh.estimate, a + [m]))
    ensures Needed(sh, a, [m])
  {
    assert [m][..1] == [m];
  }

  /** One more chunk. */
  lemma CutsSnoc(sh: Share, chunks: seq<seq<Message>>, chunk: seq<Message>)
    requires forall c :: 0 <= c < |chunks| ==> NotOverfull(sh, chunks[c])
    requires forall c :: 0 <= c < |chunks| - 1 ==> Needed(sh, chunks[c], chunks[c + 1])
    requires NotOverfull(sh, chunk) && (chunks != [] ==> Needed(sh, chunks[|chunks| - 1], chunk))
    ensures var all := chunks + [chunk];
      && (forall c :: 0 <= c < |all| ==> NotOverfull(sh, all[c]))
      && (forall c :: 0 <= c < |all| - 1 ==> Needed(sh, all[c], all[c + 1]))
  {
    hide NotOverfull, Needed;
  }

  /** What an assistant message calls does not depend on what is before it. */
  lemma {:induction false} WaitingFrom(messages: seq<Message>, p: nat)
    requires p < |messages| && messages[p].Assistant?
    ensures Waiting(messages[p..]) == Waiting(messages)
    decreases |messages|
  {
    hide Waiting;
    var before, m := messages[..|messages| - 1], messages[|messages| - 1];
    assert messages == before + [m];
    WaitingSnoc(before, m);
    if p < |before| {
      WaitingFrom(before, p);
      assert messages[p..] == before[p..] + [m];
      WaitingSnoc(before[p..], m);
    } else {
      assert messages[p..] == [] + [m];
      WaitingSnoc([], m);
    }
  }

  /** Results only take away from what the last call waits for. */
  lemma {:induction false} WaitingShrinks(messages: seq<Message>, p: nat, n: nat)
    requires LastCall(messages, p) && p < n <= |messages|
    ensures Waiting(messages) <= Waiting(messages[..n])
    decreases |messages|
  {
    hide Waiting, Live;
    if n < |messages| {
      var before, m := messages[..|messages| - 1], messages[|messages| - 1];
      assert messages == before + [m] && before[..n] == messages[..n];
      assert LastCall(before, p);
      WaitingShrinks(before, p, n);
      WaitingSnoc(before, m);
    } else {
      assert messages[..n] == messages;
    }
  }

  lemma LastCallStays(messages: seq<Message>, m: Message, p: nat)
    requires LastCall(messages, p) && !m.Assistant?
    ensures LastCall(messages + [m], p)
  {
  }

  /** A call group on its own is nowhere overfull: it cannot be cut. */
  lemma GroupNotOverfull(sh: Share, messages: seq<Message>, m: Message, p: nat)
    requires LastCall(messages, p) && Waiting(messages) != {} && !m.Assistant?
    ensures var group := (messages + [m])[p..]; CallGroup(group) && NotOverfull(sh, group)
  {
    hide Waiting, Over;
    var all := messages + [m];
    var group := all[p..];
    forall q | 1 <= q < |group|
      ensures !Cuttable(group, q)
    {
      assert group[..q] == messages[..p + q][p..];
      WaitingFrom(messages[..p + q], p);
      WaitingShrinks(messages, p, p + q);
    }
  }

  lemma GroupNeeded(sh: Share, messages: seq<Message>, p: nat)
    requires p < |messages| && Over(sh, Tokens(sh.estimate, messages)) && CallGroup(messages[p..])
    ensures Needed(sh, messages[..p], messages[p..])
  {
    hide Over, CallGroup;
    var b := messages[p..];
    PutTogether(messages, p);
    assert b[..|b|] == b;
  }

  // ----- one message -----

  /** An assistant message is taken. */
  lemma AssistantOnTarget(sh: Share, cut: Split, m: Message)
    requires m.Assistant? && CutOk(sh, cut, m)
    requires cut.pending == {} && MayCut(sh, cut) && cut.current != [] ==>
               !Over(sh, Tokens(sh.estimate, cut.current + [m]))
    ensures TargetOk(sh, Note(sh, Join(sh, cut, m), m))
  {
    hide NotOverfull, Needed, Waiting, Over;
    TokensSnoc(sh.estimate, cut.current, m);
    WaitingSnoc(cut.current, m);
    NothingWaiting();
    MoreOnTarget(sh, cut, m);
    assert (cut.current + [m])[..|cut.current|] == cut.current;
  }

  lemma NothingWaiting()
    ensures Waiting([]) == {}
  {
  }

  /** What any message keeps of the chunks. */
  lemma MoreOnTarget(sh: Share, cut: Split, m: Message)
    requires CutOk(sh, cut, m)
    ensures cut.chunks != [] ==> Needed(sh, cut.chunks[|cut.chunks| - 1], cut.current + [m])
    ensures MayCut(sh, cut)
            && (cut.current != [] && Cuttable(cut.current + [m], |cut.current|) ==>
                  !Over(sh, Tokens(sh.estimate, cut.current + [m])))
            ==> NotOverfull(sh, cut.current + [m])
  {
    hide Needed, Waiting, Over, Cuttable;
    if TargetOk(sh, cut) {
      if cut.chunks != [] {
        NeededMore(sh, cut.chunks[|cut.chunks| - 1], cut.current, [m]);
      }
      if MayCut(sh, cut) && (cut.current != [] && Cuttable(cut.current + [m], |cut.current|) ==>
                               !Over(sh, Tokens(sh.estimate, cut.current + [m]))) {
        NotOverfullSnoc(sh, cut.current, m);
      }
    } else {
      assert cut.current + [m] == [m];
    }
  }

  /** A message that neither calls nor answers anything is taken. */
  lemma QuietOnTarget(sh: Share, cut: Split, m: Message)
    requires !m.Assistant? && (m.ToolResult? ==> cut.pending == {}) && CutOk(sh, cut, m)
    requires cut.pending == {} && MayCut(sh, cut) && cut.current != [] ==>
               !Over(sh, Tokens(sh.estimate, cut.current + [m]))
    ensures TargetOk(sh, Note(sh, Join(sh, cut, m), m))
  {
    hide NotOverfull, Needed, Waiting, Over, LastCall;
    TokensSnoc(sh.estimate, cut.current, m);
    WaitingSnoc(cut.current, m);
    NothingWaiting();
    MoreOnTarget(sh, cut, m);
    if cut.pending != {} {
      LastCallStays(cut.current, m, cut.pendingStart.value);
    }
    SamePrefix(cut.current, m);
  }

  lemma SamePrefix(messages: seq<Message>, m: Message)
    ensures forall p :: 0 <= p <= |messages| ==> (messages + [m])[..p] == messages[..p]
    ensures (messages + [m])[|messages|] == m && (messages + [m])[..|messages| + 1] == messages + [m]
  {
  }

  /** A result is taken while calls wait, and the chunk is not cut. */
  lemma ResultOnTarget(sh: Share, st: Split, m: Message, noted: Split)
    requires m.ToolResult? && TargetOk(sh, st) && st.pending != {}
    requires noted == if m.callId.None? then Join(sh, st, m).(pending := {}, pendingStart := None)
                      else Join(sh, st, m).(pending := st.pending - {m.callId.value})
    requires m.callId.Some? && noted.pending == {} && MayCut(sh, st) && Over(sh, noted.currentTokens) ==>
               st.pendingStart == Some(0)
    ensures TargetOk(sh, noted)
  {
    hide NotOverfull, Needed, Waiting, Over;
    TokensSnoc(sh.estimate, st.current, m);
    WaitingSnoc(st.current, m);
    SamePrefix(st.current, m);
    LastCallStays(st.current, m, st.pendingStart.value);
    MoreOnTarget(sh, st, m);
  }

  /** A result ends the waiting and takes the chunk over the target: it is cut in front of the
      call. */
  lemma ClosingOnTarget(sh: Share, st: Split, m: Message)
    requires m.ToolResult? && m.callId.Some? && TargetOk(sh, st) && st.pending != {} && MayCut(sh, st)
    requires st.pending - {m.callId.value} == {} && Over(sh, Tokens(sh.estimate, st.current + [m]))
    requires 0 < st.pendingStart.value
    ensures var p, all := st.pendingStart.value, st.current + [m];
      p <= |all| && TargetOk(sh, Split(st.chunks + [all[..p]], all[p..], Tokens(sh.estimate, all[p..]), {}, None))
  {
    hide NotOverfull, Needed, Waiting, Over;
    var p, all := st.pendingStart.value, st.current + [m];
    WaitingSnoc(st.current, m);
    SamePrefix(st.current, m);
    WaitingFrom(all, p);
    GroupNotOverfull(sh, st.current, m, p);
    GroupNeeded(sh, all, p);
    PrefixNotOverfull(sh, st.current, p);
    CutsSnoc(sh, st.chunks, st.current[..p]);
  }

  lemma StepOnTarget(sh: Share, st: Split, m: Message)
    requires TargetOk(sh, st)
    ensures TargetOk(sh, SplitStep(sh, st, m))
  {
    hide TargetOk, Over, NotOverfull, Needed;
    CutBeforeOnTarget(sh, st, m);
    var cut := CutBefore(sh, st, m);
    if m.Assistant? {
      AssistantOnTarget(sh, cut, m);
    } else if !m.ToolResult? || cut.pending == {} {
      QuietOnTarget(sh, cut, m);
    } else {
      PendingMeansNoCut(sh, st, m);
      TakeResult(sh, st, m);
    }
  }

  lemma PendingMeansNoCut(sh: Share, st: Split, m: Message)
    requires CutBefore(sh, st, m).pending != {}
    ensures CutBefore(sh, st, m) == st
  {
  }

  lemma TakeResult(sh: Share, st: Split, m: Message)
    requires m.ToolResult? && TargetOk(sh, st) && st.pending != {}
    ensures TargetOk(sh, Note(sh, Join(sh, st, m), m))
  {
    hide NotOverfull, Needed, Waiting, Over;
    var joined := Join(sh, st, m);
    var noted := if m.callId.None? then joined.(pending := {}, pendingStart := None)
                 else joined.(pending := joined.pending - {m.callId.value});
    TokensSnoc(sh.estimate, st.current, m);
    if m.callId.Some? && noted.pending == {} && MayCut(sh, st) && Over(sh, noted.currentTokens)
       && st.pendingStart != Some(0) {
      ClosingOnTarget(sh, st, m);
    } else {
      ResultOnTarget(sh, st, m, noted);
      ForgetsPlace(sh, noted);
    }
  }

  lemma ForgetsPlace(sh: Share, st: Split)
    requires TargetOk(sh, st)
    ensures st.pending == {} ==> TargetOk(sh, st.(pendingStart := None))
  {
    hide NotOverfull, Needed, Waiting, Over, LastCall;
  }

  lemma {:induction false} AllOnTarget(sh: Share, st: Split, messages: seq<Message>)
    requires TargetOk(sh, st)
    ensures TargetOk(sh, SplitAll(sh, st, messages))
    decreases |messages|
  {
    hide TargetOk, SplitStep;
    if messages != [] {
      StepOnTarget(sh, st, messages[0]);
      AllOnTarget(sh, SplitStep(sh, st, messages[0]), messages[1..]);
    }
  }

  // ----- the result -----

  /** The calls of an assistant message, not the chunk's first message, still wait at its end. */
  ghost predicate EndsWaiting(chunk: seq<Message>)
  {
    Waiting(chunk) != {} && exists j :: 1 <= j < |chunk| && chunk[j].Assistant?
  }

  /** Every cut is needed: the message behind it, or a call group there, would have taken the
      chunk in front of it over the target. And no needed cut is left out: as long as fewer
      chunks are begun than asked for, a chunk is within the target wherever it could be cut. */
  ghost predicate OnTarget(sh: Share, chunks: seq<seq<Message>>)
  {
    && (forall c :: 0 <= c < |chunks| - 1 ==> Needed(sh, chunks[c], chunks[c + 1]))
    && (forall c :: 0 <= c < |chunks| && c < sh.parts - 1 ==> NotOverfull(sh, chunks[c]))
    && (chunks != [] && |chunks| < sh.parts && EndsWaiting(chunks[|chunks| - 1]) ==>
          !Over(sh, Tokens(sh.estimate, chunks[|chunks| - 1])))
  }

  /** The calls that still wait at the end are cut off in front of their message. */
  lemma EndCutOnTarget(sh: Share, st: Split)
    requires TargetOk(sh, st) && st.pending != {} && Over(sh, st.currentTokens) && MayCut(sh, st)
    requires 0 < st.pendingStart.value
    ensures var p := st.pendingStart.value;
      p < |st.current| && OnTarget(sh, st.chunks + [st.current[..p]] + [st.current[p..]])
  {
    hide NotOverfull, Needed, Waiting, Over;
    var p := st.pendingStart.value;
    var before, m := st.current[..|st.current| - 1], st.current[|st.current| - 1];
    var group := st.current[p..];
    GroupNeeded(sh, st.current, p);
    PrefixNotOverfull(sh, st.current, p);
    OpenGroupNotOverfull(sh, st.current, p);
    CutsSnoc(sh, st.chunks, st.current[..p]);
    CutsSnoc(sh, st.chunks + [st.current[..p]], group);
  }

  lemma OpenGroupNotOverfull(sh: Share, messages: seq<Message>, p: nat)
    requires LastCall(messages, p) && Waiting(messages) != {}
    ensures NotOverfull(sh, messages[p..]) && !EndsWaiting(messages[p..])
  {
    hide Waiting, Over;
    var group := messages[p..];
    forall q | 1 <= q < |group|
      ensures FitsAt(sh, group, q)
    {
      assert group[..q] == messages[..p + q][p..];
      WaitingFrom(messages[..p + q], p);
      WaitingShrinks(messages, p, p + q);
    }
  }

  lemma FinishOnTarget(sh: Share, st: Split)
    requires TargetOk(sh, st) && st.current != []
    ensures OnTarget(sh, FinishSplit(sh, st))
  {
    hide NotOverfull, Needed, Waiting, Over;
    if st.pending != {} && Over(sh, st.currentTokens) && MayCut(sh, st) && st.pendingStart.value > 0 {
      EndCutOnTarget(sh, st);
    } else if MayCut(sh, st) {
      CutsSnoc(sh, st.chunks, st.current);
    } else {
      LastCut(sh, st.chunks, st.current);
    }
  }

  /** The last chunk, when there are as many as asked for, takes whatever is left. */
  lemma LastCut(sh: Share, chunks: seq<seq<Message>>, chunk: seq<Message>)
    requires |chunks| >= sh.parts - 1
    requires forall c :: 0 <= c < |chunks| ==> NotOverfull(sh, chunks[c])
    requires forall c :: 0 <= c < |chunks| - 1 ==> Needed(sh, chunks[c], chunks[c + 1])
    requires chunks != [] ==> Needed(sh, chunks[|chunks| - 1], chunk)
    ensures OnTarget(sh, chunks + [chunk])
  {
    hide NotOverfull, Needed;
  }

  /** The shares of a conversation keep to the target, which is its tokens by the number of
      parts. */
  lemma SharesAreOnTarget(estimate: Estimator, messages: seq<Message>, parts: Number)
    requires messages != []
    ensures var n := NormalizeParts(parts, |messages|);
      OnTarget(Share(estimate, n, Tokens(estimate, messages) as real / n as real),
               SplitByTokenShare(estimate, messages, parts))
  {
    hide TargetOk, SplitAll, FinishSplit, OnTarget;
    var n := NormalizeParts(parts, |messages|);
    var sh := Share(estimate, n, Tokens(estimate, messages) as real / n as real);
    if n <= 1 {
      OneShare(sh, messages);
    } else {
      StartOnTarget(sh);
      AllOnTarget(sh, START, messages);
      StartIsOk(sh, messages);
      assert messages[0..] == messages;
      AllKeeps(sh, messages, 0, START);
      FinishOnTarget(sh, SplitAll(sh, START, messages));
    }
  }

  lemma OneShare(sh: Share, messages: seq<Message>)
    requires sh.parts == 1
    ensures OnTarget(sh, [messages])
  {
  }

  /** Two neighbouring shares together always exceed the target. */
  lemma NeighboursExceed(estimate: Estimator, messages: seq<Message>, parts: Number, c: nat)
    requires c + 1 < |SplitByTokenShare(estimate, messages, parts)|
    ensures var chunks := SplitByTokenShare(estimate, messages, parts);
      (Tokens(estimate, chunks[c]) + Tokens(estimate, chunks[c + 1])) as real
      > Tokens(estimate, messages) as real / NormalizeParts(parts, |messages|) as real
  {
    hide SplitByTokenShare, NotOverfull, Needed;
    SomeMessages(estimate, messages, parts);
    SharesAreOnTarget(estimate, messages, parts);
    var n, chunks := NormalizeParts(parts, |messages|), SplitByTokenShare(estimate, messages, parts);
    NeededTogether(Share(estimate, n, Tokens(estimate, messages) as real / n as real), chunks[c], chunks[c + 1]);
  }

  lemma SomeMessages(estimate: Estimator, messages: seq<Message>, parts: Number)
    ensures SplitByTokenShare(estimate, messages, parts) != [] ==> messages != []
  {
  }
}
