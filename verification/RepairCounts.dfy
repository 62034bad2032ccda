/** How many messages the pairing repair leaves: orphans and duplicates are taken out,
    missing results are put in, and everything else stays (`repairToolUseResultPairing` in
    src/agents/session-transcript-repair.ts). */
module RepairCounts {
  import opened Collections
  import opened Messages
  import opened TokenShare
  import opened Repair

  /** The results of a span that repeat an id answered before or already `found` in it. */
  function SpanDuplicates(span: seq<Message>, calls: seq<string>, seen: set<string>, found: set<string>): nat
    decreases |span|
  {
    if span == [] then 0
    else
      var m := span[0];
      if !m.ToolResult? || m.callId.None? || m.callId.value !in calls then SpanDuplicates(span[1..], calls, seen, found)
      else if m.callId.value in seen + found then 1 + SpanDuplicates(span[1..], calls, seen, found)
      else SpanDuplicates(span[1..], calls, seen, found + {m.callId.value})
  }

  function Called(calls: seq<string>): set<string>
  {
    set id | id in calls
  }

  /** The called ids that were neither answered before nor are answered now. */
  function MissingIds(calls: seq<string>, seen: set<string>, found: set<string>): set<string>
  {
    Called(calls) - seen - found
  }

  /** The duplicates in a history and the results put in for missing ones, span by span. */
  datatype Counts = Counts(duplicates: nat, inserted: nat)

  function CountFrom(messages: seq<Message>, seen: set<string>): Counts
    decreases |messages|
  {
    if messages == [] then Counts(0, 0)
    else
      var m := messages[0];
      if !m.Assistant? || m.calls == [] then CountFrom(messages[1..], seen)
      else
        var n := SpanLength(messages[1..]);
        var span := ScanSpan(messages[1..][..n], m.calls, seen, Span(map[], [], 0, false));
        var rest := CountFrom(messages[1..][n..], PushResults(m.calls, span.results, seen, m.stop == Completed).seen);
        Counts(SpanDuplicates(messages[1..][..n], m.calls, seen, {}) + rest.duplicates,
               (if m.stop == Completed then |MissingIds(m.calls, seen, span.results.Keys)| else 0) + rest.inserted)
  }

  /** How many results the repair takes out as duplicates; none if it changes nothing. */
  function Duplicates(messages: seq<Message>): nat
  {
    if RepairFrom(messages, {}).changed then CountFrom(messages, {}).duplicates else 0
  }

  /** How many results it puts in. */
  function Inserted(messages: seq<Message>): nat
  {
    CountFrom(messages, {}).inserted
  }

  // ----- one span -----

  /** One message of a span. */
  lemma ScanStep(span: seq<Message>, calls: seq<string>, seen: set<string>, acc: Span) returns (next: Span, d: nat)
    requires span != [] && acc.results.Keys !! seen
    ensures ScanSpan(span, calls, seen, acc) == ScanSpan(span[1..], calls, seen, next)
    ensures SpanDuplicates(span, calls, seen, acc.results.Keys)
            == d + SpanDuplicates(span[1..], calls, seen, next.results.Keys)
    ensures |next.results| + |next.others| + next.orphans + d == 1 + |acc.results| + |acc.others| + acc.orphans
    ensures next.results.Keys !! seen && next.results.Keys <= acc.results.Keys + Called(calls)
    ensures !next.changed ==> !acc.changed && next.orphans == acc.orphans
  {
    var m := span[0];
    d := 0;
    if !m.ToolResult? {
      next := acc.(others := acc.others + [m]);
    } else if m.callId.None? || m.callId.value !in calls {
      next := acc.(orphans := acc.orphans + 1, changed := true);
    } else if m.callId.value in seen {
      next, d := acc.(changed := true), 1;
    } else if m.callId.value in acc.results {
      next, d := acc, 1;
    } else {
      hide ScanSpan, SpanDuplicates;
      next := acc.(results := acc.results[m.callId.value := m]);
      NewResult(span, calls, seen, acc, m.callId.value);
    }
  }

  /** The first result of a call. */
  lemma NewResult(span: seq<Message>, calls: seq<string>, seen: set<string>, acc: Span, id: string)
    requires span != [] && span[0].ToolResult? && span[0].callId == Some(id) && id in calls
             && id !in seen + acc.results.Keys
    ensures var results := acc.results[id := span[0]];
      && ScanSpan(span, calls, seen, acc) == ScanSpan(span[1..], calls, seen, acc.(results := results))
      && SpanDuplicates(span, calls, seen, acc.results.Keys) == SpanDuplicates(span[1..], calls, seen, results.Keys)
      && results.Keys == acc.results.Keys + {id} && |results| == 1 + |acc.results|
  {
    var results := acc.results[id := span[0]];
    assert results.Keys == acc.results.Keys + {id};
  }

  lemma {:induction false} ScanCounts(span: seq<Message>, calls: seq<string>, seen: set<string>, acc: Span)
    requires acc.results.Keys !! seen
    ensures var r := ScanSpan(span, calls, seen, acc);
      && |r.results| + |r.others| + r.orphans + SpanDuplicates(span, calls, seen, acc.results.Keys)
         == |span| + |acc.results| + |acc.others| + acc.orphans
      && r.results.Keys !! seen && r.results.Keys <= acc.results.Keys + Called(calls)
      && (!r.changed ==> !acc.changed && r.orphans == acc.orphans)
    decreases |span|
  {
    if span != [] {
      var next, d := ScanStep(span, calls, seen, acc);
      hide ScanSpan, SpanDuplicates, Called;
      ScanCounts(span[1..], calls, seen, next);
    }
  }

  /** The called ids that are answered now and were not before. */
  function AnsweredIds(calls: seq<string>, seen: set<string>, found: set<string>): set<string>
  {
    (Called(calls) - seen) * found
  }

  lemma CalledStep(calls: seq<string>)
    requires calls != []
    ensures Called(calls) == {calls[0]} + Called(calls[1..])
  {
    assert calls == [calls[0]] + calls[1..];
  }

  lemma SeenId(calls: seq<string>, seen: set<string>, found: set<string>)
    requires calls != [] && calls[0] in seen
    ensures AnsweredIds(calls, seen, found) == AnsweredIds(calls[1..], seen, found)
    ensures MissingIds(calls, seen, found) == MissingIds(calls[1..], seen, found)
  {
    CalledStep(calls);
  }

  lemma AnsweredId(calls: seq<string>, seen: set<string>, found: set<string>)
    requires calls != [] && calls[0] !in seen && calls[0] in found
    ensures |AnsweredIds(calls, seen, found)| == 1 + |AnsweredIds(calls[1..], seen + {calls[0]}, found)|
    ensures MissingIds(calls, seen, found) == MissingIds(calls[1..], seen + {calls[0]}, found)
  {
    CalledStep(calls);
    assert AnsweredIds(calls, seen, found) == {calls[0]} + AnsweredIds(calls[1..], seen + {calls[0]}, found);
  }

  lemma MissingId(calls: seq<string>, seen: set<string>, found: set<string>)
    requires calls != [] && calls[0] !in seen && calls[0] !in found
    ensures |MissingIds(calls, seen, found)| == 1 + |MissingIds(calls[1..], seen + {calls[0]}, found)|
    ensures AnsweredIds(calls, seen, found) == AnsweredIds(calls[1..], seen + {calls[0]}, found)
    ensures AnsweredIds(calls, seen, found) == AnsweredIds(calls[1..], seen, found)
  {
    CalledStep(calls);
    assert MissingIds(calls, seen, found) == {calls[0]} + MissingIds(calls[1..], seen + {calls[0]}, found);
  }

  lemma NobodyCalled(seen: set<string>, found: set<string>)
    ensures AnsweredIds([], seen, found) == {} == MissingIds([], seen, found)
  {
    assert Called([]) == {};
  }

  /** The results put behind an assistant message: those found, and those for missing ids. */
  lemma {:induction false} PushCounts(calls: seq<string>, results: map<string, Message>, seen: set<string>,
                                      synthesize: bool)
    ensures var p := PushResults(calls, results, seen, synthesize);
      && |p.out| == |AnsweredIds(calls, seen, results.Keys)|
                    + (if synthesize then |MissingIds(calls, seen, results.Keys)| else 0)
      && (!p.changed && synthesize ==> |MissingIds(calls, seen, results.Keys)| == 0)
  {
    hide AnsweredIds, MissingIds;
    if calls == [] {
      NobodyCalled(seen, results.Keys);
    } else {
      var id, found := calls[0], results.Keys;
      if id in seen {
        SeenId(calls, seen, found);
        PushCounts(calls[1..], results, seen, synthesize);
      } else if id in found {
        AnsweredId(calls, seen, found);
        PushCounts(calls[1..], results, seen + {id}, synthesize);
      } else {
        MissingId(calls, seen, found);
        PushCounts(calls[1..], results, if synthesize then seen + {id} else seen, synthesize);
      }
    }
  }

  /** An assistant message with its span: what goes out is what came in, less orphans and
      duplicates, with the missing results put in. */
  lemma GroupCounts(spanned: seq<Message>, m: Message, seen: set<string>)
    requires m.Assistant?
    ensures var span := ScanSpan(spanned, m.calls, seen, Span(map[], [], 0, false));
      var pushed := PushResults(m.calls, span.results, seen, m.stop == Completed);
      var missing := if m.stop == Completed then |MissingIds(m.calls, seen, span.results.Keys)| else 0;
      && |pushed.out| + |span.others| + span.orphans + SpanDuplicates(spanned, m.calls, seen, {}) == |spanned| + missing
      && (!span.changed && !pushed.changed ==> span.orphans == 0 && missing == 0)
  {
    hide ScanSpan, PushResults, SpanDuplicates;
    var none: map<string, Message> := map[];
    assert none.Keys == {};
    ScanCounts(spanned, m.calls, seen, Span(map[], [], 0, false));
    var results := ScanSpan(spanned, m.calls, seen, Span(map[], [], 0, false)).results;
    PushCounts(m.calls, results, seen, m.stop == Completed);
    assert AnsweredIds(m.calls, seen, results.Keys) == results.Keys;
    assert |results.Keys| == |results|;
  }

  // ----- whole histories -----

  lemma {:induction false} RepairFromCounts(messages: seq<Message>, seen: set<string>)
    ensures var r, c := RepairFrom(messages, seen), CountFrom(messages, seen);
      && |r.out| + r.orphans + c.duplicates == |messages| + c.inserted
      && (!r.changed ==> r.orphans == 0 && c.inserted == 0)
    decreases |messages|
  {
    hide ScanSpan, PushResults, SpanDuplicates, MissingIds;
    if messages != [] {
      var m, rest := messages[0], messages[1..];
      if !m.Assistant? || m.calls == [] {
        RepairFromCounts(rest, seen);
      } else {
        var n := SpanLength(rest);
        var span := ScanSpan(rest[..n], m.calls, seen, Span(map[], [], 0, false));
        GroupCounts(rest[..n], m, seen);
        RepairFromCounts(rest[n..], PushResults(m.calls, span.results, seen, m.stop == Completed).seen);
      }
    }
  }

  /** The repair's balance, for every history: what it returns, the orphans it reports and
      the duplicates it takes out are the input and the results it puts in. */
  lemma RepairBalance(messages: seq<Message>)
    ensures var (out, orphans) := RepairPairing(messages);
      |out| + orphans + Duplicates(messages) == |messages| + Inserted(messages)
  {
    RepairFromCounts(messages, {});
  }

  // ----- examples -----

  const UNANSWERED := Assistant(["x"], Completed, "")

  /** A call without a result is given one. */
  lemma UnansweredCounts()
    ensures RepairPairing([UNANSWERED]) == ([UNANSWERED, MissingResult("x")], 0)
    ensures Inserted([UNANSWERED]) == 1 && Duplicates([UNANSWERED]) == 0
  {
    RepairMayGrow();
    RepairBalance([UNANSWERED]);
    var none: seq<Message> := [];
    assert [UNANSWERED][1..] == none && SpanLength(none) == 0 && none[..0] == none && none[0..] == none;
    assert SpanDuplicates(none, ["x"], {}, {}) == 0 && CountFrom(none, {"x"}) == Counts(0, 0);
    assert ScanSpan(none, ["x"], {}, Span(map[], [], 0, false)) == Span(map[], [], 0, false);
    assert PushResults([], map[], {"x"}, true) == Pushed([], {"x"}, false);
    assert {} + {"x"} == {"x"} && ["x"][1..] == [];
  }

  const RESULT := ToolResult(Some("x"), "")
  const UNANSWERED_Y := Assistant(["y"], Completed, "")

  /** A call answered twice, and one not answered at all. */
  const ANSWERED_TWICE := [UNANSWERED, RESULT, RESULT, UNANSWERED_Y]

  /** An assistant message with its span, as the counts and the repair see it. */
  lemma GroupStep(messages: seq<Message>, seen: set<string>)
    requires messages != [] && messages[0].Assistant? && messages[0].calls != [] && messages[0].stop == Completed
    ensures var m, tail := messages[0], messages[1..];
      var n := SpanLength(tail);
      var span := ScanSpan(tail[..n], m.calls, seen, Span(map[], [], 0, false));
      var pushed := PushResults(m.calls, span.results, seen, true);
      var rest := CountFrom(tail[n..], pushed.seen);
      && CountFrom(messages, seen) == Counts(SpanDuplicates(tail[..n], m.calls, seen, {}) + rest.duplicates,
                                             |MissingIds(m.calls, seen, span.results.Keys)| + rest.inserted)
      && (pushed.changed || RepairFrom(tail[n..], pushed.seen).changed ==> RepairFrom(messages, seen).changed)
  {
    hide SpanLength, ScanSpan, PushResults, SpanDuplicates, MissingIds;
  }

  lemma LastCallUnanswered()
    ensures CountFrom([UNANSWERED_Y], {"x"}) == Counts(0, 1) && RepairFrom([UNANSWERED_Y], {"x"}).changed
  {
    hide CountFrom, RepairFrom, PushResults, ScanSpan, SpanDuplicates, SpanLength, MissingIds;
    GroupStep([UNANSWERED_Y], {"x"});
    var none: seq<Message> := [];
    assert [UNANSWERED_Y][1..] == none && none[..0] == none && none[0..] == none;
    NothingFollows({"x"});
    MissingIsPushed();
  }

  lemma MissingIsPushed()
    ensures var found: map<string, Message> := map[];
      MissingIds(["y"], {"x"}, found.Keys) == {"y"} && PushResults(["y"], found, {"x"}, true).changed
  {
    var found: map<string, Message> := map[];
    assert found.Keys == {} && ["y"][1..] == [];
    assert Called(["y"]) == {"y"} by {
      CalledStep(["y"]);
    }
  }

  lemma NothingFollows(seen: set<string>)
    ensures SpanLength([]) == 0 && forall after :: CountFrom([], after) == Counts(0, 0)
    ensures ScanSpan([], ["y"], seen, Span(map[], [], 0, false)) == Span(map[], [], 0, false)
    ensures SpanDuplicates([], ["y"], seen, {}) == 0
  {
  }

  lemma SpanAnsweredTwice()
    ensures var span := ScanSpan([RESULT, RESULT], ["x"], {}, Span(map[], [], 0, false));
      && span.results == map["x" := RESULT] && PushResults(["x"], span.results, {}, true).seen == {"x"}
    ensures SpanDuplicates([RESULT, RESULT], ["x"], {}, {}) == 1
  {
    var span, empty := [RESULT, RESULT], Span(map[], [], 0, false);
    var one := empty.(results := empty.results["x" := RESULT]);
    NewResult(span, ["x"], {}, empty, "x");
    assert span[1..] == [RESULT] && [RESULT][1..] == [];
    assert ScanSpan([RESULT], ["x"], {}, one) == ScanSpan([], ["x"], {}, one) == one;
    assert empty.results.Keys == {} && one.results.Keys == {"x"};
    assert SpanDuplicates([RESULT], ["x"], {}, {"x"}) == 1 + SpanDuplicates([], ["x"], {}, {"x"});
    assert ["x"][1..] == [] && {} + {"x"} == {"x"};
    assert PushResults([], one.results, {"x"}, true).seen == {"x"};
  }

  lemma SpanOfTwo()
    ensures var tail := ANSWERED_TWICE[1..];
      SpanLength(tail) == 2 && tail[..2] == [RESULT, RESULT] && tail[2..] == [UNANSWERED_Y]
  {
    var tail := ANSWERED_TWICE[1..];
    assert tail == [RESULT, RESULT, UNANSWERED_Y];
    assert tail[1..] == [RESULT, UNANSWERED_Y] && tail[1..][1..] == [UNANSWERED_Y];
    assert SpanLength([UNANSWERED_Y]) == 0 && SpanLength([RESULT, UNANSWERED_Y]) == 1;
  }

  /** The repair may leave as many messages as it found without leaving the same ones: one
      duplicate is taken out and one missing result put in. */
  lemma DuplicateMakesUpForMissing()
    ensures Duplicates(ANSWERED_TWICE) == 1 && Inserted(ANSWERED_TWICE) == 1
    ensures |RepairPairing(ANSWERED_TWICE).0| + RepairPairing(ANSWERED_TWICE).1 == |ANSWERED_TWICE|
  {
    hide CountFrom, RepairFrom, RepairPairing, ScanSpan, PushResults, SpanDuplicates, SpanLength;
    GroupStep(ANSWERED_TWICE, {});
    SpanOfTwo();
    SpanAnsweredTwice();
    LastCallUnanswered();
    assert MissingIds(["x"], {}, map["x" := RESULT].Keys) == {};
    RepairBalance(ANSWERED_TWICE);
  }
}
