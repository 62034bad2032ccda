/** The repair of tool call and result pairing that pruning runs after every cut
    (`repairToolUseResultPairing` in src/agents/session-transcript-repair.ts, with its
    default options; a result's tool name is not part of the model). */
module Repair {
  import opened Collections
  import opened Messages
  import opened TokenShare

  const MISSING_TEXT: string :=
    "missing tool result in session history; inserted synthetic error result for transcript repair."

  /** The synthetic error result put in for a call without one. */
  function MissingResult(id: string): Message
  {
    ToolResult(Some(id), MISSING_TEXT)
  }

  /** How many messages come before the next assistant message. */
  function SpanLength(messages: seq<Message>): (n: nat)
    ensures n <= |messages|
    ensures forall i :: 0 <= i < n ==> !messages[i].Assistant?
    ensures n < |messages| ==> messages[n].Assistant?
  {
    if messages == [] || messages[0].Assistant? then 0 else 1 + SpanLength(messages[1..])
  }

  /** What the messages up to the next assistant hold for the calls at hand: the first
      result of each, the other messages, and the results that match no call. */
  datatype Span = Span(results: map<string, Message>, others: seq<Message>, orphans: nat, changed: bool)

  function ScanSpan(span: seq<Message>, calls: seq<string>, seen: set<string>, acc: Span): Span
    decreases |span|
  {
    if span == [] then acc
    else
      var m := span[0];
      var next :=
        if !m.ToolResult? then acc.(others := acc.others + [m])
        else if m.callId.None? || m.callId.value !in calls then acc.(orphans := acc.orphans + 1, changed := true)
        else if m.callId.value in seen then acc.(changed := true)
        else if m.callId.value in acc.results then acc
        else acc.(results := acc.results[m.callId.value := m]);
      ScanSpan(span[1..], calls, seen, next)
  }

  datatype Pushed = Pushed(out: seq<Message>, seen: set<string>, changed: bool)

  /** The results put behind an assistant message, in the order of its calls; an id that
      was answered before is not answered again. */
  function PushResults(calls: seq<string>, results: map<string, Message>, seen: set<string>, synthesize: bool): Pushed
  {
    if calls == [] then Pushed([], seen, false)
    else
      var id := calls[0];
      if id !in results && !synthesize then PushResults(calls[1..], results, seen, synthesize)
      else if id in seen then PushResults(calls[1..], results, seen, synthesize).(changed := true)
      else
        var rest := PushResults(calls[1..], results, seen + {id}, synthesize);
        if id in results then rest.(out := [results[id]] + rest.out)
        else rest.(out := [MissingResult(id)] + rest.out, changed := true)
  }

  datatype Repaired = Repaired(out: seq<Message>, orphans: nat, changed: bool)

  function RepairFrom(messages: seq<Message>, seen: set<string>): Repaired
    decreases |messages|
  {
    if messages == [] then Repaired([], 0, false)
    else
      var m := messages[0];
      if m.ToolResult? then
        var rest := RepairFrom(messages[1..], seen);
        Repaired(rest.out, rest.orphans + 1, true)
      else if m.User? || m.calls == [] then
        var rest := RepairFrom(messages[1..], seen);
        rest.(out := [m] + rest.out)
      else
        var n := SpanLength(messages[1..]);
        var span := ScanSpan(messages[1..][..n], m.calls, seen, Span(map[], [], 0, false));
        var pushed := PushResults(m.calls, span.results, seen, m.stop == Completed);
        var rest := RepairFrom(messages[1..][n..], pushed.seen);
        Repaired([m] + pushed.out + span.others + rest.out, span.orphans + rest.orphans,
                 span.changed || pushed.changed || rest.changed
                 || (m.stop == Completed && span.results != map[] && span.others != []))
  }

  /** The messages after the repair, and the number of orphans it reports: the input
      itself if nothing was noticed to change. */
  function RepairPairing(messages: seq<Message>): (seq<Message>, nat)
  {
    var repaired := RepairFrom(messages, {});
    (if repaired.changed then repaired.out else messages, repaired.orphans)
  }

  // ----- the repair keeps everything but results -----

  function NonResults(messages: seq<Message>): seq<Message>
  {
    if messages == [] then []
    else if messages[0].ToolResult? then NonResults(messages[1..])
    else [messages[0]] + NonResults(messages[1..])
  }

  lemma {:induction false} NonResultsAppend(a: seq<Message>, b: seq<Message>)
    ensures NonResults(a + b) == NonResults(a) + NonResults(b)
  {
    if a == [] {
      assert a + b == b;
    } else {
      assert (a + b)[1..] == a[1..] + b;
      NonResultsAppend(a[1..], b);
    }
  }

  ghost predicate AllResults(messages: seq<Message>)
  {
    forall i :: 0 <= i < |messages| ==> messages[i].ToolResult?
  }

  lemma {:induction false} AllResultsVanish(messages: seq<Message>)
    requires AllResults(messages)
    ensures NonResults(messages) == []
  {
    if messages != [] {
      AllResultsVanish(messages[1..]);
    }
  }

  lemma {:induction false} ScanKeepsOthers(span: seq<Message>, calls: seq<string>, seen: set<string>, acc: Span)
    requires forall id :: id in acc.results ==> acc.results[id].ToolResult?
    ensures var r := ScanSpan(span, calls, seen, acc);
      && r.others == acc.others + NonResults(span)
      && (forall id :: id in r.results ==> r.results[id].ToolResult?)
    decreases |span|
  {
    if span != [] {
      var m := span[0];
      var next :=
        if !m.ToolResult? then acc.(others := acc.others + [m])
        else if m.callId.None? || m.callId.value !in calls then acc.(orphans := acc.orphans + 1, changed := true)
        else if m.callId.value in seen then acc.(changed := true)
        else if m.callId.value in acc.results then acc
        else acc.(results := acc.results[m.callId.value := m]);
      ScanKeepsOthers(span[1..], calls, seen, next);
    }
  }

  lemma {:induction false} PushedAreResults(calls: seq<string>, results: map<string, Message>, seen: set<string>,
                                            synthesize: bool)
    requires forall id :: id in results ==> results[id].ToolResult?
    ensures AllResults(PushResults(calls, results, seen, synthesize).out)
  {
    if calls != [] {
      PushedAreResults(calls[1..], results, seen, synthesize);
      PushedAreResults(calls[1..], results, seen + {calls[0]}, synthesize);
    }
  }

  lemma {:induction false} NonResultsOnly(messages: seq<Message>)
    ensures forall i :: 0 <= i < |NonResults(messages)| ==> !NonResults(messages)[i].ToolResult?
    ensures NonResults(NonResults(messages)) == NonResults(messages)
  {
    if messages != [] {
      NonResultsOnly(messages[1..]);
      if !messages[0].ToolResult? {
        assert NonResults(messages)[1..] == NonResults(messages[1..]);
      }
    }
  }

  lemma {:induction false} RepairFromKeepsNonResults(messages: seq<Message>, seen: set<string>)
    ensures NonResults(RepairFrom(messages, seen).out) == NonResults(messages)
    decreases |messages|
  {
    if messages != [] {
      var m := messages[0];
      if m.ToolResult? || m.User? || m.calls == [] {
        RepairFromKeepsNonResults(messages[1..], seen);
        NonResultsAppend([m], RepairFrom(messages[1..], seen).out);
      } else {
        hide RepairFrom, NonResults, ScanSpan, PushResults, SpanLength;
        var tail := messages[1..];
        var n := SpanLength(tail);
        var span := ScanSpan(tail[..n], m.calls, seen, Span(map[], [], 0, false));
        var pushed := PushResults(m.calls, span.results, seen, m.stop == Completed);
        GroupHolds(tail[..n], m, seen);
        RepairFromKeepsNonResults(tail[n..], pushed.seen);
        GroupRepaired(messages, seen);
        GroupNonResults(m, pushed.out, span.others, RepairFrom(tail[n..], pushed.seen).out);
        NonResultsAppend(tail[..n], tail[n..]);
        PutTogether(tail, n);
        FirstStays(messages);
        Collections.Regroup([m], NonResults(tail[..n]), NonResults(tail[n..]));
      }
    }
  }

  /** What the repair makes of an assistant message and its span. */
  lemma GroupRepaired(messages: seq<Message>, seen: set<string>)
    requires messages != [] && messages[0].Assistant? && messages[0].calls != []
    ensures var m, tail := messages[0], messages[1..];
      var n := SpanLength(tail);
      var span := ScanSpan(tail[..n], m.calls, seen, Span(map[], [], 0, false));
      var pushed := PushResults(m.calls, span.results, seen, m.stop == Completed);
      RepairFrom(messages, seen).out == [m] + pushed.out + span.others + RepairFrom(tail[n..], pushed.seen).out
  {
    hide ScanSpan, PushResults, SpanLength;
  }

  lemma FirstStays(messages: seq<Message>)
    requires messages != [] && !messages[0].ToolResult?
    ensures NonResults(messages) == [messages[0]] + NonResults(messages[1..])
  {
  }

  lemma GroupHolds(spanned: seq<Message>, m: Message, seen: set<string>)
    requires m.Assistant?
    ensures var span := ScanSpan(spanned, m.calls, seen, Span(map[], [], 0, false));
      var pushed := PushResults(m.calls, span.results, seen, m.stop == Completed);
      && span.others == NonResults(spanned) == NonResults(span.others)
      && NonResults(pushed.out) == []
  {
    var span := ScanSpan(spanned, m.calls, seen, Span(map[], [], 0, false));
    ScanKeepsOthers(spanned, m.calls, seen, Span(map[], [], 0, false));
    PushedAreResults(m.calls, span.results, seen, m.stop == Completed);
    AllResultsVanish(PushResults(m.calls, span.results, seen, m.stop == Completed).out);
    NonResultsOnly(spanned);
    assert span.others == NonResults(spanned);
  }

  lemma GroupNonResults(m: Message, results: seq<Message>, others: seq<Message>, rest: seq<Message>)
    requires !m.ToolResult? && NonResults(results) == [] && NonResults(others) == others
    ensures NonResults([m] + results + others + rest) == [m] + others + NonResults(rest)
  {
    NonResultsAppend([m] + results + others, rest);
    NonResultsAppend([m] + results, others);
    NonResultsAppend([m], results);
    assert [m][1..] == [];
  }

  /** A repaired conversation keeps every message but tool results, in order, and never
      begins with a tool result. */
  lemma RepairKeepsConversation(messages: seq<Message>)
    ensures var out := RepairPairing(messages).0;
      && NonResults(out) == NonResults(messages)
      && (out != [] ==> !out[0].ToolResult?)
  {
    RepairFromKeepsNonResults(messages, {});
    RepairedHead(messages, {});
  }

  lemma {:induction false} RepairedHead(messages: seq<Message>, seen: set<string>)
    ensures var r := RepairFrom(messages, seen);
      && (r.out != [] ==> !r.out[0].ToolResult?)
      && (!r.changed && messages != [] ==> !messages[0].ToolResult?)
    decreases |messages|
  {
    if messages != [] && messages[0].ToolResult? {
      RepairedHead(messages[1..], seen);
    }
  }

  /** Results are another matter: a call without one is given one, so the repair can
      make a history longer. */
  lemma RepairMayGrow()
    ensures var call := Assistant(["x"], Completed, "");
            RepairPairing([call]) == ([call, MissingResult("x")], 0)
  {
    var call := Assistant(["x"], Completed, "");
    var none: seq<Message> := [];
    assert [call][1..] == none && ["x"][1..] == [];
    assert PushResults([], map[], {} + {"x"}, true) == Pushed([], {"x"}, false);
    assert PushResults(["x"], map[], {}, true) == Pushed([MissingResult("x")], {"x"}, true);
    assert SpanLength(none) == 0 && none[..0] == none && none[0..] == none;
    assert ScanSpan(none, ["x"], {}, Span(map[], [], 0, false)) == Span(map[], [], 0, false);
    assert RepairFrom(none, {"x"}) == Repaired([], 0, false);
    assert RepairFrom([call], {}) == Repaired([call] + [MissingResult("x")] + [] + [], 0, true);
    assert [call] + [MissingResult("x")] + [] + none == [call, MissingResult("x")];
  }

  // ----- well-paired histories -----

  /** Every live assistant message is followed at once by one result for each of its
      calls, in order; ids are answered once; there are no other results. */
  ghost predicate WellPaired(messages: seq<Message>, seen: set<string>)
    decreases |messages|
  {
    if messages == [] then true
    else
      var m := messages[0];
      if !Live(m) then !m.ToolResult? && WellPaired(messages[1..], seen)
      else
        && Answers(messages[1..], m.calls)
        && Distinct(m.calls) && CallIds(m) !! seen
        && WellPaired(messages[1..][|m.calls|..], seen + CallIds(m))
  }

  /** The messages begin with one result for each call, in order. */
  ghost predicate Answers(messages: seq<Message>, calls: seq<string>)
  {
    && |calls| <= |messages|
    && (forall i :: 0 <= i < |calls| ==> messages[i].ToolResult? && messages[i].callId == Some(calls[i]))
  }

  lemma {:induction false} FewerSeenIsFine(messages: seq<Message>, seen: set<string>, fewer: set<string>)
    requires WellPaired(messages, seen) && fewer <= seen
    ensures WellPaired(messages, fewer)
    decreases |messages|
  {
    if messages != [] {
      var m := messages[0];
      if Live(m) {
        FewerSeenIsFine(messages[1..][|m.calls|..], seen + CallIds(m), fewer + CallIds(m));
      } else {
        FewerSeenIsFine(messages[1..], seen, fewer);
      }
    }
  }

  /** Up to the next assistant message a well-paired history holds no results. */
  lemma {:induction false} SpanHasNoResults(messages: seq<Message>, seen: set<string>)
    requires WellPaired(messages, seen)
    ensures var n := SpanLength(messages);
      && NonResults(messages[..n]) == messages[..n]
      && (forall i :: 0 <= i < n ==> !messages[i].ToolResult?)
      && WellPaired(messages[n..], seen)
    decreases |messages|
  {
    if messages != [] && !messages[0].Assistant? {
      var n := SpanLength(messages[1..]);
      SpanHasNoResults(messages[1..], seen);
      assert messages[..n + 1] == [messages[0]] + messages[1..][..n];
      assert messages[n + 1..] == messages[1..][n..];
    }
  }

  lemma {:induction false} ScanWithoutResults(span: seq<Message>, calls: seq<string>, seen: set<string>, acc: Span)
    requires forall i :: 0 <= i < |span| ==> !span[i].ToolResult?
    ensures ScanSpan(span, calls, seen, acc) == acc.(others := acc.others + span)
    decreases |span|
  {
    if span != [] {
      ScanWithoutResults(span[1..], calls, seen, acc.(others := acc.others + [span[0]]));
      assert acc.others + [span[0]] + span[1..] == acc.others + span;
    } else {
      assert acc.others + span == acc.others;
    }
  }

  lemma NotBefore(calls: seq<string>, k: nat)
    requires Distinct(calls) && k < |calls|
    ensures calls[k] !in calls[..k]
  {
    forall i | 0 <= i < k
      ensures calls[i] != calls[k]
    {
      DistinctAt(calls, i, k);
    }
  }

  lemma ScanTakesAnswer(span: seq<Message>, calls: seq<string>, seen: set<string>, k: nat,
                        results: map<string, Message>)
    requires k < |calls| && k < |span| && span[k].ToolResult? && span[k].callId == Some(calls[k])
    requires calls[k] in calls && calls[k] !in seen && calls[k] !in results
    ensures ScanSpan(span[k..], calls, seen, Span(results, [], 0, false))
         == ScanSpan(span[k + 1..], calls, seen, Span(results[calls[k] := span[k]], [], 0, false))
  {
    assert span[k..][0] == span[k] && span[k..][1..] == span[k + 1..];
  }

  lemma {:induction false} ScanAnswers(span: seq<Message>, calls: seq<string>, seen: set<string>, k: nat,
                                       results: map<string, Message>)
    requires k <= |calls| && Answers(span, calls) && Distinct(calls)
    requires forall id :: id in calls ==> id !in seen
    requires forall id :: id in results <==> id in calls[..k]
    requires forall i :: 0 <= i < k ==> calls[i] in results && results[calls[i]] == span[i]
    requires forall i :: |calls| <= i < |span| ==> !span[i].ToolResult?
    ensures var r := ScanSpan(span[k..], calls, seen, Span(results, [], 0, false));
      && r.others == span[|calls|..] && r.orphans == 0 && !r.changed
      && (forall i :: 0 <= i < |calls| ==> calls[i] in r.results && r.results[calls[i]] == span[i])
      && (calls != [] ==> r.results != map[])
    decreases |calls| - k
  {
    hide ScanSpan;
    if k == |calls| {
      ScanWithoutResults(span[k..], calls, seen, Span(results, [], 0, false));
      assert [] + span[k..] == span[|calls|..];
    } else {
      NotBefore(calls, k);
      ScanTakesAnswer(span, calls, seen, k, results);
      assert calls[..k + 1] == calls[..k] + [calls[k]];
      ScanAnswers(span, calls, seen, k + 1, results[calls[k] := span[k]]);
    }
  }

  lemma {:induction false} PushAnswers(calls: seq<string>, results: map<string, Message>, seen: set<string>,
                                       answers: seq<Message>)
    requires |answers| == |calls| && Distinct(calls) && forall id :: id in calls ==> id !in seen
    requires forall i :: 0 <= i < |calls| ==> calls[i] in results && results[calls[i]] == answers[i]
    ensures PushResults(calls, results, seen, true) == Pushed(answers, seen + (set id | id in calls), false)
  {
    if calls == [] {
      assert answers == [] && seen + (set id | id in calls) == seen;
    } else {
      forall i | 0 <= i < |calls[1..]|
        ensures calls[1..][i] in results && results[calls[1..][i]] == answers[1..][i]
      {
        assert calls[1..][i] == calls[i + 1];
      }
      PushAnswers(calls[1..], results, seen + {calls[0]}, answers[1..]);
      assert seen + {calls[0]} + (set id | id in calls[1..]) == seen + (set id | id in calls) by {
        assert calls == [calls[0]] + calls[1..];
      }
      assert answers == [results[calls[0]]] + answers[1..];
    }
  }

  lemma LiveIsPaired(messages: seq<Message>, seen: set<string>)
    requires messages != [] && Live(messages[0]) && WellPaired(messages, seen)
    ensures var m, rest := messages[0], messages[1..];
      && Answers(rest, m.calls) && Distinct(m.calls) && CallIds(m) !! seen
      && WellPaired(rest[|m.calls|..], seen + CallIds(m))
  {
  }

  /** A live message's group: its results, then the messages up to the next assistant. */
  lemma GroupUnchanged(messages: seq<Message>, seen: set<string>)
    requires messages != [] && Live(messages[0]) && WellPaired(messages, seen)
    ensures var m, rest := messages[0], messages[1..];
      var n := SpanLength(rest);
      var span := ScanSpan(rest[..n], m.calls, seen, Span(map[], [], 0, false));
      && |m.calls| <= n
      && span.others == rest[..n][|m.calls|..] && span.orphans == 0 && !span.changed
      && PushResults(m.calls, span.results, seen, true) == Pushed(rest[..|m.calls|], seen + CallIds(m), false)
      && WellPaired(rest[n..], seen + CallIds(m))
  {
    hide ScanSpan, PushResults, SpanLength;
    var m, rest := messages[0], messages[1..];
    var k := |m.calls|;
    LiveIsPaired(messages, seen);
    hide WellPaired;
    SpanOfAnswers(rest, m.calls);
    SpanHasNoResults(rest[k..], seen + CallIds(m));
    var n := SpanLength(rest);
    assert rest[k..][SpanLength(rest[k..])..] == rest[n..];
    forall i | k <= i < n
      ensures !rest[..n][i].ToolResult?
    {
      assert rest[..n][i] == rest[k..][i - k];
    }
    forall id | id in m.calls
      ensures id !in seen
    {
      assert id in CallIds(m);
    }
    assert rest[..n][0..] == rest[..n] && Answers(rest[..n], m.calls);
    ScanAnswers(rest[..n], m.calls, seen, 0, map[]);
    var span := ScanSpan(rest[..n], m.calls, seen, Span(map[], [], 0, false));
    PushAnswers(m.calls, span.results, seen, rest[..k]);
  }

  lemma {:induction false} SpanOfAnswers(messages: seq<Message>, calls: seq<string>)
    requires Answers(messages, calls)
    ensures SpanLength(messages) == |calls| + SpanLength(messages[|calls|..])
  {
    if calls == [] {
      assert messages[0..] == messages;
    } else {
      assert messages[0].ToolResult?;
      forall i | 0 <= i < |calls[1..]|
        ensures messages[1..][i].ToolResult? && messages[1..][i].callId == Some(calls[1..][i])
      {
        assert messages[1..][i] == messages[i + 1];
      }
      SpanOfAnswers(messages[1..], calls[1..]);
      assert messages[1..][|calls[1..]|..] == messages[|calls|..];
    }
  }

  /** A failed assistant message has no results behind it, and gets none. */
  lemma FailedGroupUnchanged(messages: seq<Message>, seen: set<string>)
    requires messages != [] && messages[0].Assistant? && messages[0].calls != [] && !Live(messages[0])
    requires WellPaired(messages, seen)
    ensures var m, rest := messages[0], messages[1..];
      var n := SpanLength(rest);
      && ScanSpan(rest[..n], m.calls, seen, Span(map[], [], 0, false)) == Span(map[], rest[..n], 0, false)
      && PushResults(m.calls, map[], seen, m.stop == Completed) == Pushed([], seen, false)
      && WellPaired(rest[n..], seen)
  {
    var m, rest := messages[0], messages[1..];
    var n := SpanLength(rest);
    SpanHasNoResults(rest, seen);
    ScanWithoutResults(rest[..n], m.calls, seen, Span(map[], [], 0, false));
    NothingToPush(m.calls, seen);
    assert [] + rest[..n] == rest[..n];
  }

  lemma Regroup(messages: seq<Message>, k: nat, n: nat)
    requires messages != [] && k <= n <= |messages[1..]|
    ensures [messages[0]] + messages[1..][..k] + messages[1..][..n][k..] + messages[1..][n..] == messages
  {
    var rest := messages[1..];
    assert rest[..k] + rest[..n][k..] == rest[..n];
    assert rest[..n] + rest[n..] == rest;
  }

  /** The repair leaves a well-paired history alone. */
  lemma {:induction false} WellPairedUnchanged(messages: seq<Message>, seen: set<string>)
    requires WellPaired(messages, seen)
    ensures RepairFrom(messages, seen).out == messages && RepairFrom(messages, seen).orphans == 0
    decreases |messages|
  {
    if messages != [] {
      var m, rest := messages[0], messages[1..];
      var n := SpanLength(rest);
      if Live(m) {
        GroupUnchanged(messages, seen);
        WellPairedUnchanged(rest[n..], seen + CallIds(m));
        Regroup(messages, |m.calls|, n);
      } else if m.User? || m.calls == [] {
        WellPairedUnchanged(rest, seen);
      } else {
        FailedGroupUnchanged(messages, seen);
        WellPairedUnchanged(rest[n..], seen);
        Regroup(messages, 0, n);
        assert rest[..0] == [] && rest[..n][0..] == rest[..n];
      }
    }
  }

  lemma {:induction false} NothingToPush(calls: seq<string>, seen: set<string>)
    ensures PushResults(calls, map[], seen, false) == Pushed([], seen, false)
  {
    if calls != [] {
      NothingToPush(calls[1..], seen);
    }
  }

  // ----- safe cuts keep pairing -----

  lemma SafeCutOfTail(messages: seq<Message>, skip: nat, b: nat)
    requires skip <= b <= |messages| && SafeCut(messages, b)
    ensures SafeCut(messages[skip..], b - skip)
  {
    forall a, r | a < b - skip <= r
      ensures !Protected(messages[skip..], a, r)
    {
      if Protected(messages[skip..], a, r) {
        assert Protected(messages, a + skip, r + skip) by {
          forall j | a + skip < j < r + skip
            ensures !messages[j].Assistant?
            ensures messages[j].ToolResult?
                    ==> messages[j].callId.Some? && messages[j].callId != messages[r + skip].callId
          {
            assert messages[j] == messages[skip..][j - skip];
          }
        }
      }
    }
  }

  lemma AnswerIsProtected(messages: seq<Message>, b: nat)
    requires messages != [] && Live(messages[0]) && Answers(messages[1..], messages[0].calls)
             && Distinct(messages[0].calls)
    requires 1 <= b <= |messages[0].calls|
    ensures Protected(messages, 0, b)
  {
    var calls := messages[0].calls;
    assert messages[b] == messages[1..][b - 1];
    forall j | 0 < j < b
      ensures !messages[j].Assistant? && messages[j].callId.Some? && messages[j].callId != messages[b].callId
    {
      assert messages[j] == messages[1..][j - 1];
      DistinctAt(calls, j - 1, b - 1);
    }
  }

  /** What a safe cut leaves behind of a well-paired history is well-paired. */
  lemma {:induction false} SafeCutKeepsPairing(messages: seq<Message>, seen: set<string>, b: nat)
    requires WellPaired(messages, seen) && b <= |messages| && SafeCut(messages, b)
    ensures WellPaired(messages[b..], {})
    decreases |messages|
  {
    if b == 0 {
      FewerSeenIsFine(messages, seen, {});
      assert messages[0..] == messages;
    } else {
      var m, rest := messages[0], messages[1..];
      if !Live(m) {
        SafeCutOfTail(messages, 1, b);
        SafeCutKeepsPairing(rest, seen, b - 1);
        assert rest[b - 1..] == messages[b..];
      } else if b <= |m.calls| {
        AnswerIsProtected(messages, b);
        assert false;
      } else {
        var k := 1 + |m.calls|;
        assert messages[k..] == rest[|m.calls|..];
        SafeCutOfTail(messages, k, b);
        SafeCutKeepsPairing(messages[k..], seen + CallIds(m), b - k);
        assert messages[k..][b - k..] == messages[b..];
      }
    }
  }
}
