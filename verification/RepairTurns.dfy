/** What the pairing repair puts behind each assistant message, said without its loops
    (`repairToolUseResultPairing` in src/agents/session-transcript-repair.ts). */
module RepairTurns {
  import opened Collections
  import opened Messages
  import opened TokenShare
  import opened Repair

  /** An assistant message and the messages behind it, up to the next assistant message. */
  datatype Turn = Turn(m: Message, span: seq<Message>)

  function Turns(messages: seq<Message>): (turns: seq<Turn>)
    ensures forall k :: 0 <= k < |turns| ==> turns[k].m.Assistant?
  {
    if messages == [] then []
    else if !messages[0].Assistant? then Turns(messages[1..])
    else [Turn(messages[0], messages[1..][..SpanLength(messages[1..])])] + Turns(messages[1..])
  }

  predicate IsResultOf(m: Message, id: string)
  {
    m.ToolResult? && m.callId == Some(id)
  }

  /** The first result of a call, if there is one. */
  function FirstResult(span: seq<Message>, id: string): (r: Option<Message>)
    ensures r.None? ==> forall i :: 0 <= i < |span| ==> !IsResultOf(span[i], id)
    ensures r.Some? ==> exists i :: 0 <= i < |span| && span[i] == r.value && IsResultOf(span[i], id)
                                    && forall j :: 0 <= j < i ==> !IsResultOf(span[j], id)
  {
    if span == [] then None
    else if IsResultOf(span[0], id) then Some(span[0])
    else
      var r := FirstResult(span[1..], id);
      assert r.Some? ==> exists i :: 0 <= i < |span| && span[i] == r.value && IsResultOf(span[i], id)
                                     && forall j :: 0 <= j < i ==> !IsResultOf(span[j], id) by {
        if r.Some? {
          var i :| 0 <= i < |span[1..]| && span[1..][i] == r.value && IsResultOf(span[1..][i], id)
                   && forall j :: 0 <= j < i ==> !IsResultOf(span[1..][j], id);
          assert span[i + 1] == r.value;
        }
      }
      r
  }

  /** The ids that the messages hold results of. */
  ghost function ResultIds(span: seq<Message>): set<string>
  {
    set m | m in span && m.ToolResult? && m.callId.Some? :: m.callId.value
  }

  lemma ResultIdsMean(span: seq<Message>, id: string)
    ensures id in ResultIds(span) <==> FirstResult(span, id).Some?
  {
    hide FirstResult;
    if id in ResultIds(span) {
      var m :| m in span && m.ToolResult? && m.callId == Some(id);
      assert IsResultOf(m, id);
    }
  }

  /** The ids answered in the first `k` turns. */
  ghost function Earlier(turns: seq<Turn>, k: nat): set<string>
    requires k <= |turns|
  {
    if k == 0 then {} else Earlier(turns, k - 1) + ResultIds(turns[k - 1].span)
  }

  /** What should stand behind a turn's message for a call: nothing, if the message does not
      make the call or it was answered in an earlier turn; else the first result of the turn;
      else the synthetic result, if the message completed. */
  function Answer(t: Turn, id: string, seen: set<string>): Option<Message>
    requires t.m.Assistant?
  {
    if id !in t.m.calls || id in seen then None
    else if FirstResult(t.span, id).Some? then FirstResult(t.span, id)
    else if t.m.stop == Completed then Some(MissingResult(id))
    else None
  }

  // ----- one span -----

  lemma {:induction false} ScanFinds(span: seq<Message>, calls: seq<string>, seen: set<string>, acc: Span, id: string)
    requires id in acc.results ==> id in calls && id !in seen
    ensures var r := ScanSpan(span, calls, seen, acc);
      && (id in r.results ==> id in calls && id !in seen)
      && (id in calls && id !in seen ==>
            (if id in r.results then Some(r.results[id]) else None)
            == (if id in acc.results then Some(acc.results[id]) else FirstResult(span, id)))
      && (!r.changed && FirstResult(span, id).Some? ==> id in calls && id !in seen)
      && (!r.changed ==> !acc.changed)
    decreases |span|
  {
    if span != [] {
      var m := span[0];
      var next :=
        if !m.ToolResult? then acc.(others := acc.others + [m])
        else if m.callId.None? || m.callId.value !in calls then acc.(orphans := acc.orphans + 1, changed := true)
        else if m.callId.value in seen then acc.(changed := true)
        else if m.callId.value in acc.results then acc
        else acc.(results := acc.results[m.callId.value := m]);
      ScanFinds(span[1..], calls, seen, next, id);
    }
  }

  /** What the results pushed behind a message hold for a call. */
  function Pushes(calls: seq<string>, results: map<string, Message>, seen: set<string>, synthesize: bool, id: string)
    : Option<Message>
  {
    if id !in calls || id in seen then None
    else if id in results then Some(results[id])
    else if synthesize then Some(MissingResult(id))
    else None
  }

  ghost predicate Keyed(results: map<string, Message>)
  {
    forall id :: id in results ==> IsResultOf(results[id], id)
  }

  lemma FirstOfCons(m: Message, rest: seq<Message>, id: string)
    ensures FirstResult([m] + rest, id) == if IsResultOf(m, id) then Some(m) else FirstResult(rest, id)
  {
    assert ([m] + rest)[1..] == rest;
  }

  lemma {:induction false} PushFinds(calls: seq<string>, results: map<string, Message>, seen: set<string>,
                                     synthesize: bool, id: string)
    requires Keyed(results)
    ensures FirstResult(PushResults(calls, results, seen, synthesize).out, id)
         == Pushes(calls, results, seen, synthesize, id)
  {
    hide FirstResult;
    if calls == [] {
      NoFirst(id);
    } else {
      var first, more := calls[0], calls[1..];
      assert id in calls <==> id == first || id in more;
      PushFinds(more, results, seen, synthesize, id);
      PushFinds(more, results, seen + {first}, synthesize, id);
      var rest := PushResults(more, results, seen + {first}, synthesize).out;
      if first in results {
        FirstOfCons(results[first], rest, id);
      }
      FirstOfCons(MissingResult(first), rest, id);
    }
  }

  lemma NoFirst(id: string)
    ensures FirstResult([], id) == None
  {
  }

  /** The ids seen afterwards are those seen before and those answered now. */
  lemma {:induction false} PushSees(calls: seq<string>, results: map<string, Message>, seen: set<string>,
                                    synthesize: bool)
    requires Keyed(results)
    ensures var p := PushResults(calls, results, seen, synthesize); p.seen == seen + ResultIds(p.out)
    ensures var p := PushResults(calls, results, seen, synthesize);
      !p.changed && synthesize ==> forall id :: id in calls ==> id !in seen && id in results
  {
    if calls == [] {
      assert ResultIds([]) == {};
    } else {
      var first, more := calls[0], calls[1..];
      if (first !in results && !synthesize) || first in seen {
        PushSees(more, results, seen, synthesize);
      } else {
        PushSees(more, results, seen + {first}, synthesize);
        var rest := PushResults(more, results, seen + {first}, synthesize).out;
        var m := if first in results then results[first] else MissingResult(first);
        ResultIdsCons(m, first, rest);
      }
    }
  }

  lemma ResultIdsCons(m: Message, id: string, rest: seq<Message>)
    requires IsResultOf(m, id)
    ensures ResultIds([m] + rest) == {id} + ResultIds(rest)
  {
    forall x
      ensures x in ResultIds([m] + rest) <==> x in {id} + ResultIds(rest)
    {
      ResultIdsMean([m] + rest, x);
      ResultIdsMean(rest, x);
      FirstOfCons(m, rest, x);
    }
  }

  // ----- the order of the results -----

  /** Where a call is first made. */
  function Position(calls: seq<string>, id: string): (p: nat)
    requires id in calls
    ensures p < |calls| && calls[p] == id && id !in calls[..p]
  {
    if calls[0] == id then 0
    else
      var p := 1 + Position(calls[1..], id);
      assert calls[..p] == [calls[0]] + calls[1..][..p - 1];
      p
  }

  ghost predicate AnswersOne(m: Message, calls: seq<string>)
  {
    m.ToolResult? && m.callId.Some? && m.callId.value in calls
  }

  /** Results of some of the calls, one each, in the order of the calls. */
  ghost predicate CallOrder(results: seq<Message>, calls: seq<string>)
  {
    && (forall i :: 0 <= i < |results| ==> AnswersOne(results[i], calls))
    && (forall i, j :: 0 <= i < j < |results| ==>
          Position(calls, results[i].callId.value) < Position(calls, results[j].callId.value))
  }

  lemma PositionStep(calls: seq<string>, id: string)
    requires calls != [] && id in calls && id != calls[0]
    ensures id in calls[1..] && Position(calls, id) == 1 + Position(calls[1..], id)
  {
  }

  /** Results of later calls are results of the calls. */
  lemma OrderOfLater(results: seq<Message>, calls: seq<string>)
    requires calls != [] && CallOrder(results, calls[1..])
    requires forall i :: 0 <= i < |results| ==> results[i].callId != Some(calls[0])
    ensures CallOrder(results, calls)
  {
    hide Position;
    forall i | 0 <= i < |results|
      ensures AnswersOne(results[i], calls)
      ensures Position(calls, results[i].callId.value) == 1 + Position(calls[1..], results[i].callId.value)
    {
      assert AnswersOne(results[i], calls[1..]);
      PositionStep(calls, results[i].callId.value);
    }
  }

  lemma OrderOfFirst(m: Message, results: seq<Message>, calls: seq<string>)
    requires calls != [] && IsResultOf(m, calls[0]) && CallOrder(results, calls)
    requires forall i :: 0 <= i < |results| ==> results[i].callId != Some(calls[0])
    ensures CallOrder([m] + results, calls)
  {
    hide Position;
    assert Position(calls, calls[0]) == 0 by {
      FirstPosition(calls);
    }
    forall i, j | 0 <= i < j < |[m] + results|
      ensures Position(calls, ([m] + results)[i].callId.value) < Position(calls, ([m] + results)[j].callId.value)
    {
      assert ([m] + results)[j] == results[j - 1] && AnswersOne(results[j - 1], calls);
      if i > 0 {
        assert ([m] + results)[i] == results[i - 1];
      } else {
        LaterPosition(calls, results[j - 1].callId.value);
      }
    }
  }

  lemma FirstPosition(calls: seq<string>)
    requires calls != []
    ensures Position(calls, calls[0]) == 0
  {
  }

  lemma LaterPosition(calls: seq<string>, id: string)
    requires calls != [] && id in calls && id != calls[0]
    ensures Position(calls, id) > 0
  {
  }

  lemma {:induction false} PushInOrder(calls: seq<string>, results: map<string, Message>, seen: set<string>,
                                       synthesize: bool)
    requires Keyed(results)
    ensures var out := PushResults(calls, results, seen, synthesize).out;
      && CallOrder(out, calls)
      && (forall i :: 0 <= i < |out| ==>
            out[i].callId.value !in seen && (out[i].callId.value in results || synthesize))
  {
    hide Position;
    if calls != [] {
      var first, more := calls[0], calls[1..];
      if (first !in results && !synthesize) || first in seen {
        PushInOrder(more, results, seen, synthesize);
        OrderOfLater(PushResults(more, results, seen, synthesize).out, calls);
      } else {
        PushInOrder(more, results, seen + {first}, synthesize);
        var rest := PushResults(more, results, seen + {first}, synthesize).out;
        OrderOfLater(rest, calls);
        OrderOfFirst(if first in results then results[first] else MissingResult(first), rest, calls);
      }
    }
  }

  // ----- a message and its span -----

  ghost predicate NoResults(messages: seq<Message>)
  {
    forall i :: 0 <= i < |messages| ==> !messages[i].ToolResult?
  }

  ghost predicate NoAssistant(messages: seq<Message>)
  {
    forall i :: 0 <= i < |messages| ==> !messages[i].Assistant?
  }

  lemma NothingFound(messages: seq<Message>)
    requires NoResults(messages)
    ensures ResultIds(messages) == {} && forall id :: FirstResult(messages, id) == None
  {
    hide FirstResult;
  }

  lemma {:induction false} FirstOfAppend(a: seq<Message>, b: seq<Message>, id: string)
    ensures FirstResult(a + b, id) == if FirstResult(a, id).Some? then FirstResult(a, id) else FirstResult(b, id)
  {
    hide FirstResult;
    if a == [] {
      NothingAdded(b);
      NoFirst(id);
    } else {
      assert [a[0]] + a[1..] == a;
      Collections.Regroup([a[0]], a[1..], b);
      FirstOfAppend(a[1..], b, id);
      FirstOfCons(a[0], a[1..], id);
      FirstOfCons(a[0], a[1..] + b, id);
    }
  }

  ghost predicate TurnAnswered(i: Turn, o: Turn, seen: set<string>)
    requires i.m.Assistant?
  {
    o.m == i.m && forall id :: FirstResult(o.span, id) == Answer(i, id, seen)
  }

  /** And the results stand behind the message at once, one for each call, in the order of the
      calls, before everything else of the turn. */
  ghost predicate TurnExact(i: Turn, o: Turn, seen: set<string>)
    requires i.m.Assistant?
  {
    && TurnAnswered(i, o, seen)
    && exists g: nat :: g <= |o.span| && CallOrder(o.span[..g], i.m.calls) && o.span[g..] == NonResults(i.span)
  }

  lemma GroupScan(t: Turn, seen: set<string>)
    requires t.m.Assistant?
    ensures var sc := ScanSpan(t.span, t.m.calls, seen, Span(map[], [], 0, false));
      && Keyed(sc.results) && sc.others == NonResults(t.span) && NoResults(sc.others)
      && (forall id :: Pushes(t.m.calls, sc.results, seen, t.m.stop == Completed, id) == Answer(t, id, seen))
      && (forall id :: id in sc.results ==> FirstResult(t.span, id) == Some(sc.results[id]))
      && (!sc.changed ==> forall id :: FirstResult(t.span, id).Some? ==> id in t.m.calls && id !in seen)
  {
    hide ScanSpan, FirstResult;
    var empty := Span(map[], [], 0, false);
    var sc := ScanSpan(t.span, t.m.calls, seen, empty);
    forall id
      ensures id in sc.results ==> IsResultOf(sc.results[id], id) && FirstResult(t.span, id) == Some(sc.results[id])
      ensures Pushes(t.m.calls, sc.results, seen, t.m.stop == Completed, id) == Answer(t, id, seen)
      ensures !sc.changed && FirstResult(t.span, id).Some? ==> id in t.m.calls && id !in seen
    {
      ScanFinds(t.span, t.m.calls, seen, empty, id);
    }
    ScanKeepsOthers(t.span, t.m.calls, seen, empty);
    NothingAdded(NonResults(t.span));
    NonResultsOnly(t.span);
  }

  /** What the repair makes of a turn. */
  lemma GroupExact(t: Turn, seen: set<string>)
    requires t.m.Assistant?
    ensures var sc := ScanSpan(t.span, t.m.calls, seen, Span(map[], [], 0, false));
      var pushed := PushResults(t.m.calls, sc.results, seen, t.m.stop == Completed);
      var span := pushed.out + sc.others;
      && TurnExact(t, Turn(t.m, span), seen) && pushed.seen == seen + ResultIds(span)
      && (!sc.changed && !pushed.changed ==> TurnAnswered(t, t, seen) && pushed.seen == seen + ResultIds(t.span))
  {
    hide ScanSpan, PushResults, FirstResult, ResultIds, CallOrder, Keyed, NoResults, Pushes;
    var sc := ScanSpan(t.span, t.m.calls, seen, Span(map[], [], 0, false));
    var synthesize := t.m.stop == Completed;
    var pushed := PushResults(t.m.calls, sc.results, seen, synthesize);
    var span := pushed.out + sc.others;
    GroupScan(t, seen);
    PushInOrder(t.m.calls, sc.results, seen, synthesize);
    PushSees(t.m.calls, sc.results, seen, synthesize);
    NothingFound(sc.others);
    forall id
      ensures FirstResult(span, id) == FirstResult(pushed.out, id) == Answer(t, id, seen)
    {
      FirstOfAppend(pushed.out, sc.others, id);
      PushFinds(t.m.calls, sc.results, seen, synthesize, id);
    }
    SameIds(span, pushed.out);
    TakeApart(pushed.out, sc.others);
    assert TurnAnswered(t, Turn(t.m, span), seen);
    if !sc.changed && !pushed.changed {
      forall id
        ensures FirstResult(t.span, id) == Answer(t, id, seen)
      {
        AllThere(t, seen, sc.results, id);
      }
      SameIds(span, t.span);
    }
  }

  lemma SameIds(a: seq<Message>, b: seq<Message>)
    requires forall id :: FirstResult(a, id) == FirstResult(b, id)
    ensures ResultIds(a) == ResultIds(b)
  {
    hide FirstResult, ResultIds;
    forall id
      ensures id in ResultIds(a) <==> id in ResultIds(b)
    {
      ResultIdsMean(a, id);
      ResultIdsMean(b, id);
    }
  }

  /** If nothing was noticed to change, the results are all there already. */
  lemma AllThere(t: Turn, seen: set<string>, results: map<string, Message>, id: string)
    requires t.m.Assistant?
    requires FirstResult(t.span, id).Some? ==> id in t.m.calls && id !in seen
    requires t.m.stop == Completed && id in t.m.calls ==> id !in seen && id in results
    requires Pushes(t.m.calls, results, seen, t.m.stop == Completed, id) == Answer(t, id, seen)
    requires Keyed(results) && (id in results ==> FirstResult(t.span, id) == Some(results[id]))
    ensures FirstResult(t.span, id) == Answer(t, id, seen)
  {
    hide FirstResult;
  }

  // ----- whole histories -----

  ghost predicate AllAnswered(ins: seq<Turn>, outs: seq<Turn>, seen: set<string>)
    requires forall k :: 0 <= k < |ins| ==> ins[k].m.Assistant?
    decreases |ins|
  {
    && |ins| == |outs|
    && (ins != [] ==>
          TurnAnswered(ins[0], outs[0], seen) && AllAnswered(ins[1..], outs[1..], seen + ResultIds(outs[0].span)))
  }

  ghost predicate AllExact(ins: seq<Turn>, outs: seq<Turn>, seen: set<string>)
    requires forall k :: 0 <= k < |ins| ==> ins[k].m.Assistant?
    decreases |ins|
  {
    && |ins| == |outs|
    && (ins != [] ==>
          TurnExact(ins[0], outs[0], seen) && AllExact(ins[1..], outs[1..], seen + ResultIds(outs[0].span)))
  }

  lemma {:induction false} SkipOthers(a: seq<Message>, b: seq<Message>)
    requires NoAssistant(a) && (b != [] ==> b[0].Assistant?)
    ensures Turns(a + b) == Turns(b) && SpanLength(a + b) == |a|
  {
    if a == [] {
      NothingAdded(b);
    } else {
      assert (a + b)[1..] == a[1..] + b;
      SkipOthers(a[1..], b);
    }
  }

  /** A turn in front of the others. */
  lemma TurnInFront(m: Message, span: seq<Message>, rest: seq<Message>)
    requires m.Assistant? && NoAssistant(span) && (rest != [] ==> rest[0].Assistant?)
    ensures Turns([m] + span + rest) == [Turn(m, span)] + Turns(rest)
  {
    hide SpanLength;
    SkipOthers(span, rest);
    var all := [m] + span + rest;
    assert all[1..] == span + rest;
    TakeApart(span, rest);
    FirstTurn(all);
  }

  lemma FirstTurn(messages: seq<Message>)
    requires messages != [] && messages[0].Assistant?
    ensures var n := SpanLength(messages[1..]);
      Turns(messages) == [Turn(messages[0], messages[1..][..n])] + Turns(messages[1..])
  {
    hide SpanLength;
  }

  lemma TurnsOfTail(messages: seq<Message>)
    ensures Turns(messages) == Turns(messages[SpanLength(messages)..])
    ensures NoAssistant(messages[..SpanLength(messages)])
    ensures messages[SpanLength(messages)..] != [] ==> messages[SpanLength(messages)..][0].Assistant?
  {
    hide SpanLength;
    var n := SpanLength(messages);
    SkipOthers(messages[..n], messages[n..]);
    PutTogether(messages, n);
  }

  function Head(messages: seq<Message>): seq<Message>
  {
    messages[..SpanLength(messages)]
  }

  lemma HeadCons(m: Message, rest: seq<Message>)
    ensures Head([m] + rest) == if m.Assistant? then [] else [m] + Head(rest)
  {
    assert ([m] + rest)[1..] == rest;
  }

  lemma HeadOfNone()
    ensures Head([]) == [] && NonResults([]) == []
  {
  }

  lemma RepairHeadStep(messages: seq<Message>, seen: set<string>)
    requires messages != [] && !messages[0].Assistant?
    ensures var r, rest := RepairFrom(messages, seen), RepairFrom(messages[1..], seen);
      && r.out == (if messages[0].ToolResult? then rest.out else [messages[0]] + rest.out)
      && (!r.changed ==> !messages[0].ToolResult? && !rest.changed)
  {
  }

  /** Up to the first assistant message the repaired history has no results. */
  lemma {:induction false} HeadRepaired(messages: seq<Message>, seen: set<string>)
    ensures Head(RepairFrom(messages, seen).out) == NonResults(Head(messages))
    ensures !RepairFrom(messages, seen).changed ==> NoResults(Head(messages))
    decreases |messages|
  {
    hide RepairFrom, Head, NonResults;
    if messages == [] {
      RepairedNothing(seen);
      HeadOfNone();
    } else if messages[0].Assistant? {
      RepairedBegins(messages, seen);
      HeadOfNone();
      HeadAtAssistant(messages);
      HeadAtAssistant(RepairFrom(messages, seen).out);
    } else {
      var m, rest := messages[0], messages[1..];
      assert messages == [m] + rest;
      HeadRepaired(rest, seen);
      RepairHeadStep(messages, seen);
      HeadCons(m, rest);
      HeadCons(m, RepairFrom(rest, seen).out);
      NonResultsCons(m, Head(rest));
    }
  }

  lemma RepairedNothing(seen: set<string>)
    ensures RepairFrom([], seen).out == [] && Head(RepairFrom([], seen).out) == []
  {
  }

  lemma HeadAtAssistant(messages: seq<Message>)
    requires messages != [] ==> messages[0].Assistant?
    ensures Head(messages) == []
  {
  }

  lemma NonResultsCons(m: Message, rest: seq<Message>)
    ensures NonResults([m] + rest) == if m.ToolResult? then NonResults(rest) else [m] + NonResults(rest)
  {
    assert ([m] + rest)[1..] == rest;
  }

  lemma RepairedBegins(messages: seq<Message>, seen: set<string>)
    requires messages != [] ==> messages[0].Assistant?
    ensures var out := RepairFrom(messages, seen).out; out != [] ==> out[0].Assistant?
  {
    if messages != [] && messages[0].calls != [] {
      GroupRepaired(messages, seen);
    }
  }

  /** The repair of an assistant message with its span. */
  lemma GroupStep(messages: seq<Message>, seen: set<string>)
    requires messages != [] && messages[0].Assistant? && messages[0].calls != []
    ensures var m, tail := messages[0], messages[1..];
      var n := SpanLength(tail);
      var sc := ScanSpan(tail[..n], m.calls, seen, Span(map[], [], 0, false));
      var pushed := PushResults(m.calls, sc.results, seen, m.stop == Completed);
      var r, rest := RepairFrom(messages, seen), RepairFrom(tail[n..], pushed.seen);
      && r.out == [m] + (pushed.out + sc.others) + rest.out
      && (!r.changed ==> !sc.changed && !pushed.changed && !rest.changed)
      && (!r.changed && m.stop == Completed ==> sc.results == map[] || sc.others == [])
  {
    hide ScanSpan, PushResults, SpanLength;
    var m, tail := messages[0], messages[1..];
    var n := SpanLength(tail);
    var sc := ScanSpan(tail[..n], m.calls, seen, Span(map[], [], 0, false));
    var pushed := PushResults(m.calls, sc.results, seen, m.stop == Completed);
    Collections.Regroup([m], pushed.out, sc.others);
  }

  lemma CallerStep(messages: seq<Message>, seen: set<string>)
    requires messages != [] && messages[0].Assistant? && messages[0].calls == []
    ensures var r, rest := RepairFrom(messages, seen), RepairFrom(messages[1..], seen);
      r.out == [messages[0]] + rest.out && r.changed == rest.changed
  {
  }

  /** A message that calls nothing has nothing but what is no result behind it. */
  lemma QuietTurn(t: Turn, span: seq<Message>, seen: set<string>)
    requires t.m.Assistant? && t.m.calls == [] && span == NonResults(t.span)
    ensures TurnExact(t, Turn(t.m, span), seen) && seen + ResultIds(span) == seen
  {
    hide FirstResult, ResultIds;
    NonResultsOnly(t.span);
    NothingFound(span);
    var o := Turn(t.m, span);
    assert CallOrder(o.span[..0], []) && o.span[0..] == span;
  }

  lemma {:induction false} RepairedTurns(messages: seq<Message>, seen: set<string>)
    ensures AllExact(Turns(messages), Turns(RepairFrom(messages, seen).out), seen)
    decreases |messages|
  {
    hide RepairFrom, Turns, SpanLength, ScanSpan, PushResults, TurnExact, ResultIds, NonResults;
    if messages == [] {
      RepairedNothing(seen);
      NoTurns();
    } else {
      var m, tail := messages[0], messages[1..];
      var n := SpanLength(tail);
      if !m.Assistant? {
        RepairedTurns(tail, seen);
        RepairHeadStep(messages, seen);
        TurnsCons(m, tail);
        TurnsCons(m, RepairFrom(tail, seen).out);
        assert messages == [m] + tail;
      } else if m.calls == [] {
        var out := RepairFrom(tail, seen).out;
        RepairedTurns(tail, seen);
        CallerStep(messages, seen);
        HeadRepaired(tail, seen);
        FirstTurn(messages);
        assert ([m] + out)[1..] == out;
        FirstTurn([m] + out);
        QuietTurn(Turn(m, Head(tail)), Head(out), seen);
      } else {
        var sc := ScanSpan(tail[..n], m.calls, seen, Span(map[], [], 0, false));
        var pushed := PushResults(m.calls, sc.results, seen, m.stop == Completed);
        RepairedTurns(tail[n..], pushed.seen);
        GroupStep(messages, seen);
        GroupExact(Turn(m, tail[..n]), seen);
        TurnsOfTail(tail);
        RepairedBegins(tail[n..], pushed.seen);
        OthersOnly(tail[..n], m.calls, seen, m.stop == Completed);
        TurnInFront(m, pushed.out + sc.others, RepairFrom(tail[n..], pushed.seen).out);
        FirstTurn(messages);
      }
    }
  }

  lemma NoTurns()
    ensures Turns([]) == []
  {
  }

  lemma TurnsCons(m: Message, rest: seq<Message>)
    requires !m.Assistant?
    ensures Turns([m] + rest) == Turns(rest)
  {
    assert ([m] + rest)[1..] == rest;
  }

  /** No assistant message comes out of a span. */
  lemma OthersOnly(span: seq<Message>, calls: seq<string>, seen: set<string>, synthesize: bool)
    requires NoAssistant(span)
    ensures var sc := ScanSpan(span, calls, seen, Span(map[], [], 0, false));
      NoAssistant(PushResults(calls, sc.results, seen, synthesize).out + sc.others)
  {
    hide ScanSpan, PushResults, NonResults;
    var empty := Span(map[], [], 0, false);
    var sc := ScanSpan(span, calls, seen, empty);
    ScanKeepsOthers(span, calls, seen, empty);
    PushedAreResults(calls, sc.results, seen, synthesize);
    NothingAdded(NonResults(span));
    OnlyFrom(span);
  }

  lemma {:induction false} OnlyFrom(span: seq<Message>)
    ensures NoAssistant(span) ==> NoAssistant(NonResults(span))
  {
    if span != [] {
      OnlyFrom(span[1..]);
    }
  }

  lemma QuietTurnUnchanged(t: Turn, seen: set<string>)
    requires t.m.Assistant? && t.m.calls == [] && NoResults(t.span)
    ensures TurnAnswered(t, t, seen) && seen + ResultIds(t.span) == seen
  {
    hide FirstResult, ResultIds;
    NothingFound(t.span);
  }

  /** A history in which the repair notices nothing to change has its answers already. */
  lemma {:induction false} UnchangedTurns(messages: seq<Message>, seen: set<string>)
    requires !RepairFrom(messages, seen).changed
    ensures AllAnswered(Turns(messages), Turns(messages), seen)
    decreases |messages|
  {
    hide RepairFrom, Turns, SpanLength, ScanSpan, PushResults, TurnExact, TurnAnswered, ResultIds;
    if messages == [] {
      NoTurns();
    } else {
      var m, tail := messages[0], messages[1..];
      var n := SpanLength(tail);
      if !m.Assistant? {
        RepairHeadStep(messages, seen);
        UnchangedTurns(tail, seen);
        TurnsCons(m, tail);
        assert messages == [m] + tail;
      } else if m.calls == [] {
        CallerStep(messages, seen);
        UnchangedTurns(tail, seen);
        HeadRepaired(tail, seen);
        FirstTurn(messages);
        QuietTurnUnchanged(Turn(m, Head(tail)), seen);
      } else {
        var sc := ScanSpan(tail[..n], m.calls, seen, Span(map[], [], 0, false));
        var pushed := PushResults(m.calls, sc.results, seen, m.stop == Completed);
        GroupStep(messages, seen);
        UnchangedTurns(tail[n..], pushed.seen);
        GroupExact(Turn(m, tail[..n]), seen);
        TurnsOfTail(tail);
        FirstTurn(messages);
      }
    }
  }

  lemma {:induction false} ExactIsAnswered(ins: seq<Turn>, outs: seq<Turn>, seen: set<string>)
    requires forall k :: 0 <= k < |ins| ==> ins[k].m.Assistant?
    requires AllExact(ins, outs, seen)
    ensures AllAnswered(ins, outs, seen)
    decreases |ins|
  {
    hide TurnAnswered, ResultIds;
    if ins != [] {
      ExactIsAnswered(ins[1..], outs[1..], seen + ResultIds(outs[0].span));
    }
  }

  lemma {:induction false} EarlierFromFirst(turns: seq<Turn>, k: nat)
    requires 0 < k <= |turns|
    ensures Earlier(turns, k) == ResultIds(turns[0].span) + Earlier(turns[1..], k - 1)
  {
    hide ResultIds;
    if k > 1 {
      EarlierFromFirst(turns, k - 1);
    }
  }

  lemma {:induction false} AnsweredAt(ins: seq<Turn>, outs: seq<Turn>, seen: set<string>, k: nat)
    requires forall j :: 0 <= j < |ins| ==> ins[j].m.Assistant?
    requires AllAnswered(ins, outs, seen) && k < |ins|
    ensures |ins| == |outs| && TurnAnswered(ins[k], outs[k], seen + Earlier(outs, k))
    decreases |ins|
  {
    hide TurnAnswered, ResultIds;
    if k > 0 {
      var now := ResultIds(outs[0].span);
      AnsweredAt(ins[1..], outs[1..], seen + now, k - 1);
      EarlierFromFirst(outs, k);
      assert seen + now + Earlier(outs[1..], k - 1) == seen + (now + Earlier(outs[1..], k - 1));
    } else {
      assert seen + {} == seen;
    }
  }

  lemma {:induction false} ExactAt(ins: seq<Turn>, outs: seq<Turn>, seen: set<string>, k: nat)
    requires forall j :: 0 <= j < |ins| ==> ins[j].m.Assistant?
    requires AllExact(ins, outs, seen) && k < |ins|
    ensures |ins| == |outs| && TurnExact(ins[k], outs[k], seen + Earlier(outs, k))
    decreases |ins|
  {
    hide TurnExact, ResultIds;
    if k > 0 {
      var now := ResultIds(outs[0].span);
      ExactAt(ins[1..], outs[1..], seen + now, k - 1);
      EarlierFromFirst(outs, k);
      assert seen + now + Earlier(outs[1..], k - 1) == seen + (now + Earlier(outs[1..], k - 1));
    } else {
      assert seen + {} == seen;
    }
  }

  /** For every history: the repaired history has the same assistant messages, and behind each,
      for every id whatever, the first result is exactly what should stand there. For an id that
      the message does not call, or that an earlier turn has answered, there is none. For any
      other it is the first result of the message's turn in the given history; if there is none,
      it is the synthetic one, if the message completed, and none, if it did not. */
  lemma TurnsAreAnswered(messages: seq<Message>, k: nat)
    requires k < |Turns(messages)|
    ensures var ins, outs := Turns(messages), Turns(RepairPairing(messages).0);
      && |outs| == |ins| && outs[k].m == ins[k].m
      && (forall id :: FirstResult(outs[k].span, id) == Answer(ins[k], id, Earlier(outs, k)))
  {
    hide RepairFrom, Turns, Answer, FirstResult, Earlier;
    var ins, r := Turns(messages), RepairFrom(messages, {});
    if r.changed {
      RepairedTurns(messages, {});
      ExactIsAnswered(ins, Turns(r.out), {});
      AnsweredAt(ins, Turns(r.out), {}, k);
      NothingSeen(Earlier(Turns(r.out), k));
    } else {
      UnchangedTurns(messages, {});
      AnsweredAt(ins, ins, {}, k);
      NothingSeen(Earlier(ins, k));
    }
  }

  lemma NothingSeen(seen: set<string>)
    ensures {} + seen == seen
  {
  }

  lemma NotedTurnsAreExact(messages: seq<Message>, k: nat)
    requires k < |Turns(messages)| && RepairFrom(messages, {}).changed
    ensures var ins, outs := Turns(messages), Turns(RepairPairing(messages).0);
      && |outs| == |ins|
      && exists g: nat ::
           && g <= |outs[k].span| && CallOrder(outs[k].span[..g], ins[k].m.calls)
           && outs[k].span[g..] == NonResults(ins[k].span)
  {
    hide RepairFrom, Turns, Answer, FirstResult, Earlier, CallOrder, NonResults;
    var ins, r := Turns(messages), RepairFrom(messages, {});
    RepairedTurns(messages, {});
    ExactAt(ins, Turns(r.out), {}, k);
  }

  /** If it changes anything, the repair also puts the results at once behind the message, one
      for each call and in the order of the calls, and behind them everything else of the turn. */
  lemma ChangedTurnsAreExact(messages: seq<Message>, k: nat)
    requires k < |Turns(messages)| && RepairPairing(messages).0 != messages
    ensures var ins, outs := Turns(messages), Turns(RepairPairing(messages).0);
      && |outs| == |ins|
      && exists g: nat ::
           && g <= |outs[k].span| && CallOrder(outs[k].span[..g], ins[k].m.calls)
           && outs[k].span[g..] == NonResults(ins[k].span)
  {
    hide RepairFrom, Turns, Answer, FirstResult, Earlier, CallOrder, NonResults;
    NotedTurnsAreExact(messages, k);
  }

  /** No result of the turn stands behind another message of it. */
  ghost predicate ResultsComeFirst(t: Turn)
  {
    exists g :: 0 <= g <= |t.span| && AllResults(t.span[..g]) && NoResults(t.span[g..])
  }

  lemma {:induction false} QuietScan(span: seq<Message>, calls: seq<string>, seen: set<string>, acc: Span)
    ensures var r := ScanSpan(span, calls, seen, acc);
      (acc.results != map[] || (!r.changed && !NoResults(span)) ==> r.results != map[])
    decreases |span|
  {
    if span != [] {
      var m := span[0];
      var next :=
        if !m.ToolResult? then acc.(others := acc.others + [m])
        else if m.callId.None? || m.callId.value !in calls then acc.(orphans := acc.orphans + 1, changed := true)
        else if m.callId.value in seen then acc.(changed := true)
        else if m.callId.value in acc.results then acc
        else acc.(results := acc.results[m.callId.value := m]);
      QuietScan(span[1..], calls, seen, next);
      ScanStaysChanged(span[1..], calls, seen, next);
      assert !m.ToolResult? && NoResults(span[1..]) ==> NoResults(span);
    }
  }

  lemma {:induction false} ScanStaysChanged(span: seq<Message>, calls: seq<string>, seen: set<string>, acc: Span)
    ensures acc.changed ==> ScanSpan(span, calls, seen, acc).changed
    decreases |span|
  {
    if span != [] {
      var m := span[0];
      var next :=
        if !m.ToolResult? then acc.(others := acc.others + [m])
        else if m.callId.None? || m.callId.value !in calls then acc.(orphans := acc.orphans + 1, changed := true)
        else if m.callId.value in seen then acc.(changed := true)
        else if m.callId.value in acc.results then acc
        else acc.(results := acc.results[m.callId.value := m]);
      ScanStaysChanged(span[1..], calls, seen, next);
    }
  }

  lemma {:induction false} AllOrNothing(span: seq<Message>)
    ensures NonResults(span) == [] ==> AllResults(span)
  {
    if span != [] {
      AllOrNothing(span[1..]);
    }
  }

  /** A turn in which the repair notices nothing to change has only results, or none, if its message
      completed. */
  lemma QuietGroupIsOrdered(m: Message, span: seq<Message>, seen: set<string>)
    requires m.Assistant?
    requires var sc := ScanSpan(span, m.calls, seen, Span(map[], [], 0, false));
      !sc.changed && (sc.results == map[] || sc.others == [])
    ensures ResultsComeFirst(Turn(m, span))
  {
    hide ScanSpan, NonResults;
    var empty := Span(map[], [], 0, false);
    QuietScan(span, m.calls, seen, empty);
    ScanKeepsOthers(span, m.calls, seen, empty);
    NothingAdded(NonResults(span));
    assert [] + NonResults(span) == NonResults(span);
    AllOrNothing(span);
    assert span[0..] == span && span[..|span|] == span;
    if NoResults(span) {
      assert AllResults(span[..0]);
    }
  }

  ghost predicate AreOrdered(turns: seq<Turn>)
  {
    forall k :: 0 <= k < |turns| && turns[k].m.Assistant? && turns[k].m.stop == Completed && turns[k].m.calls != [] ==>
      ResultsComeFirst(turns[k])
  }

  lemma {:induction false} UnchangedAreOrdered(messages: seq<Message>, seen: set<string>)
    requires !RepairFrom(messages, seen).changed
    ensures AreOrdered(Turns(messages))
    decreases |messages|
  {
    hide RepairFrom, Turns, SpanLength, ScanSpan, PushResults, ResultsComeFirst;
    if messages == [] {
      NoTurns();
    } else {
      var m, tail := messages[0], messages[1..];
      var n := SpanLength(tail);
      assert messages == [m] + tail;
      if !m.Assistant? {
        RepairHeadStep(messages, seen);
        UnchangedAreOrdered(tail, seen);
        TurnsCons(m, tail);
      } else if m.calls == [] {
        CallerStep(messages, seen);
        UnchangedAreOrdered(tail, seen);
        FirstTurn(messages);
      } else {
        var sc := ScanSpan(tail[..n], m.calls, seen, Span(map[], [], 0, false));
        var pushed := PushResults(m.calls, sc.results, seen, m.stop == Completed);
        GroupStep(messages, seen);
        UnchangedAreOrdered(tail[n..], pushed.seen);
        TurnsOfTail(tail);
        FirstTurn(messages);
        if m.stop == Completed {
          QuietGroupIsOrdered(m, tail[..n], seen);
        }
      }
    }
  }

  /** For every history: behind a message with calls that completed, the repaired history has the
      results of the turn in front of everything else in it. */
  lemma CompletedTurnsAreOrdered(messages: seq<Message>, k: nat)
    requires k < |Turns(messages)| && Turns(messages)[k].m.stop == Completed && Turns(messages)[k].m.calls != []
    ensures var outs := Turns(RepairPairing(messages).0); k < |outs| && ResultsComeFirst(outs[k])
  {
    hide RepairFrom, Turns, CallOrder, NonResults;
    TurnCount(messages);
    TurnsAreAnswered(messages, k);
    if RepairFrom(messages, {}).changed {
      NotedTurnsAreExact(messages, k);
      var out, calls := Turns(RepairPairing(messages).0)[k], Turns(messages)[k].m.calls;
      var g: nat :| g <= |out.span| && CallOrder(out.span[..g], calls)
                    && out.span[g..] == NonResults(Turns(messages)[k].span);
      NonResultsOnly(Turns(messages)[k].span);
      OrderedAreResults(out.span[..g], calls);
    } else {
      UnchangedAreOrdered(messages, {});
    }
  }

  lemma OrderedAreResults(results: seq<Message>, calls: seq<string>)
    requires CallOrder(results, calls)
    ensures AllResults(results)
  {
  }

  // ----- where the results come from -----

  lemma {:induction false} InSomeTurn(messages: seq<Message>, m: Message) returns (k: nat)
    requires m in messages && m !in Head(messages) && !m.Assistant?
    ensures k < |Turns(messages)| && m in Turns(messages)[k].span
  {
    hide Turns, Head;
    var first, tail := messages[0], messages[1..];
    assert messages == [first] + tail;
    if !first.Assistant? {
      HeadCons(first, tail);
      TurnsCons(first, tail);
      k := InSomeTurn(tail, m);
    } else {
      FirstTurn(messages);
      HeadMeans(tail);
      if m in Head(tail) {
        k := 0;
      } else {
        k := InSomeTurn(tail, m);
        k := k + 1;
      }
    }
  }

  lemma HeadMeans(messages: seq<Message>)
    ensures Head(messages) == messages[..SpanLength(messages)]
  {
  }

  lemma {:induction false} SpansAreFromHistory(messages: seq<Message>, k: nat)
    requires k < |Turns(messages)|
    ensures forall m :: m in Turns(messages)[k].span ==> m in messages
  {
    hide Turns, SpanLength;
    SomethingThere(messages);
    var first, tail := messages[0], messages[1..];
    assert messages == [first] + tail;
    if !first.Assistant? {
      TurnsCons(first, tail);
      SpansAreFromHistory(tail, k);
    } else {
      FirstTurn(messages);
      if k > 0 {
        SpansAreFromHistory(tail, k - 1);
      }
    }
  }

  lemma SomethingThere(messages: seq<Message>)
    ensures messages == [] ==> Turns(messages) == []
  {
  }

  /** A result in a span with its results in order is the first of its id. */
  lemma OnlyOne(span: seq<Message>, g: nat, calls: seq<string>, m: Message)
    requires g <= |span| && CallOrder(span[..g], calls) && NoResults(span[g..]) && m in span && m.ToolResult?
    ensures m.callId.Some? && FirstResult(span, m.callId.value) == Some(m)
  {
    hide Position, FirstResult;
    forall n | g <= n < |span|
      ensures !span[n].ToolResult?
    {
      assert span[n] == span[g..][n - g];
    }
    var j :| 0 <= j < |span| && span[j] == m;
    assert span[..g][j] == m && AnswersOne(span[..g][j], calls);
    var id := m.callId.value;
    forall n | 0 <= n < j
      ensures !IsResultOf(span[n], id)
    {
      assert span[n] == span[..g][n];
    }
    assert IsResultOf(span[j], id);
  }

  /** Every result in the repaired history is one of the given history, or the synthetic one for
      a call of a completed message that has no result in its turn. */
  lemma ResultsAreReal(messages: seq<Message>, m: Message)
    requires m in RepairPairing(messages).0 && m.ToolResult?
    ensures m in messages || exists k: nat, id ::
      && k < |Turns(messages)| && Turns(messages)[k].m.stop == Completed && id in Turns(messages)[k].m.calls
      && FirstResult(Turns(messages)[k].span, id) == None && m == MissingResult(id)
  {
    hide RepairFrom, Turns, FirstResult, Earlier, CallOrder, NonResults, Head;
    var ins, out := Turns(messages), RepairPairing(messages).0;
    if out != messages {
      HeadRepaired(messages, {});
      NonResultsOnly(Head(messages));
      var k := InSomeTurn(out, m);
      TurnCount(messages);
      ChangedTurnsAreExact(messages, k);
      TurnsAreAnswered(messages, k);
      var o := Turns(out)[k];
      var g: nat :| g <= |o.span| && CallOrder(o.span[..g], ins[k].m.calls) && o.span[g..] == NonResults(ins[k].span);
      NonResultsOnly(ins[k].span);
      OnlyOne(o.span, g, ins[k].m.calls, m);
      var id := m.callId.value;
      assert Answer(ins[k], id, Earlier(Turns(out), k)) == Some(m);
      if FirstResult(ins[k].span, id).Some? {
        SpansAreFromHistory(messages, k);
      }
    }
  }

  lemma TurnCount(messages: seq<Message>)
    ensures |Turns(RepairPairing(messages).0)| == |Turns(messages)|
  {
    hide RepairFrom, Turns;
    RepairedTurns(messages, {});
    LengthsAgree(Turns(messages), Turns(RepairFrom(messages, {}).out), {});
  }

  lemma LengthsAgree(ins: seq<Turn>, outs: seq<Turn>, seen: set<string>)
    requires forall j :: 0 <= j < |ins| ==> ins[j].m.Assistant?
    requires AllExact(ins, outs, seen)
    ensures |ins| == |outs|
  {
  }
}
