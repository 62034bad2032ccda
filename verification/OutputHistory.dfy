/** What a process has written so far, and what of it may be kept: the reference that
    the capped buffers of src/agents/bash-process-registry.ts are measured against. */
module OutputHistory {
  import opened Collections
  import opened Text

  datatype Stream = Stdout | Stderr

  datatype Event = Wrote(stream: Stream, text: string) | Drained

  /** How much is kept of a stream between two drains, and of everything. */
  datatype Limits = Limits(pendingCap: nat, maxOutput: nat)

  /** What one stream received since the last drain. */
  function SinceDrain(events: seq<Event>, stream: Stream): string
  {
    if events == [] then ""
    else
      var before, last := events[..|events| - 1], events[|events| - 1];
      match last
      case Drained => ""
      case Wrote(s, text) => SinceDrain(before, stream) + if s == stream then text else ""
  }

  /** What both streams received, in order of arrival. */
  function Everything(events: seq<Event>): string
  {
    if events == [] then ""
    else
      var before, last := events[..|events| - 1], events[|events| - 1];
      Everything(before) + if last.Wrote? then last.text else ""
  }

  /** More has arrived than is kept. */
  predicate Overflows(events: seq<Event>, limits: Limits)
  {
    || |SinceDrain(events, Stdout)| > limits.pendingCap
    || |SinceDrain(events, Stderr)| > limits.pendingCap
    || |Everything(events)| > limits.maxOutput
  }

  /** At some moment something had to be dropped. */
  ghost predicate EverDropped(events: seq<Event>, limits: Limits)
  {
    exists k :: 0 <= k <= |events| && Overflows(events[..k], limits)
  }

  lemma DroppedStep(events: seq<Event>, e: Event, limits: Limits)
    ensures EverDropped(events + [e], limits)
       <==> EverDropped(events, limits) || Overflows(events + [e], limits)
  {
    var all := events + [e];
    forall k | 0 <= k <= |events|
      ensures Overflows(events[..k], limits) == Overflows(all[..k], limits)
    {
      assert all[..k] == events[..k];
    }
    assert all[..|all|] == all;
  }

  lemma NothingDroppedAtFirst(limits: Limits)
    ensures !EverDropped([], limits)
  {
  }

  lemma HistoryStep(events: seq<Event>, e: Event)
    ensures forall s ::
      SinceDrain(events + [e], s) ==
        (if e.Drained? then "" else if e.stream == s then SinceDrain(events, s) + e.text else SinceDrain(events, s))
    ensures Everything(events + [e]) == if e.Wrote? then Everything(events) + e.text else Everything(events)
  {
    assert (events + [e])[..|events + [e]| - 1] == events;
    forall s: Stream
      ensures SinceDrain(events, s) + "" == SinceDrain(events, s)
    {
    }
    assert Everything(events) + "" == Everything(events);
  }

  /** A write drops something when what is kept of its stream, or of everything,
      has no room for it. */
  lemma DroppedByWrite(events: seq<Event>, stream: Stream, text: string, limits: Limits)
    ensures EverDropped(events + [Wrote(stream, text)], limits)
       <==> || EverDropped(events, limits)
            || |LastN(SinceDrain(events, stream), limits.pendingCap)| + |text| > limits.pendingCap
            || |LastN(Everything(events), limits.maxOutput)| + |text| > limits.maxOutput
  {
    hide SinceDrain, Everything, EverDropped, LastN;
    HistoryStep(events, Wrote(stream, text));
    DroppedStep(events, Wrote(stream, text), limits);
    NowOverflowing(events, limits);
  }

  // ----- feeding a text in pieces -----

  function Writes(stream: Stream, pieces: seq<string>): (r: seq<Event>)
    ensures |r| == |pieces|
  {
    if pieces == [] then []
    else Writes(stream, pieces[..|pieces| - 1]) + [Wrote(stream, pieces[|pieces| - 1])]
  }

  lemma FlattenLast(pieces: seq<string>)
    requires pieces != []
    ensures Flatten(pieces) == Flatten(pieces[..|pieces| - 1]) + pieces[|pieces| - 1]
  {
    assert pieces == pieces[..|pieces| - 1] + [pieces[|pieces| - 1]];
    FlattenSnoc(pieces[..|pieces| - 1], pieces[|pieces| - 1]);
  }

  /** Two histories that no later step and no buffer can tell apart. */
  ghost predicate SameOutput(a: seq<Event>, b: seq<Event>, limits: Limits)
  {
    && SinceDrain(a, Stdout) == SinceDrain(b, Stdout)
    && SinceDrain(a, Stderr) == SinceDrain(b, Stderr)
    && Everything(a) == Everything(b)
    && (EverDropped(a, limits) <==> EverDropped(b, limits))
  }

  lemma SameOutputStep(a: seq<Event>, b: seq<Event>, e: Event, limits: Limits)
    requires SameOutput(a, b, limits)
    ensures SameOutput(a + [e], b + [e], limits)
  {
    hide SinceDrain, Everything, EverDropped;
    HistoryStep(a, e);
    HistoryStep(b, e);
    DroppedStep(a, e, limits);
    DroppedStep(b, e, limits);
  }

  /** Two writes to a stream do what one write of both texts does. */
  lemma WritesMerge(events: seq<Event>, stream: Stream, s: string, t: string, limits: Limits)
    ensures SameOutput(events + [Wrote(stream, s)] + [Wrote(stream, t)], events + [Wrote(stream, s + t)], limits)
  {
    hide SinceDrain, Everything, EverDropped;
    var first, both := events + [Wrote(stream, s)], Wrote(stream, s + t);
    HistoryStep(events, Wrote(stream, s));
    HistoryStep(first, Wrote(stream, t));
    HistoryStep(events, both);
    DroppedStep(events, Wrote(stream, s), limits);
    DroppedStep(first, Wrote(stream, t), limits);
    DroppedStep(events, both, limits);
    var o, e, all := SinceDrain(events, Stdout), SinceDrain(events, Stderr), Everything(events);
    Regroup(o, s, t);
    Regroup(e, s, t);
    Regroup(all, s, t);
    assert o + "" == o && e + "" == e;
  }

  lemma WriteNothing(events: seq<Event>, stream: Stream, limits: Limits)
    ensures SameOutput(events, events + [Wrote(stream, "")], limits)
  {
    hide SinceDrain, Everything, EverDropped;
    HistoryStep(events, Wrote(stream, ""));
    DroppedStep(events, Wrote(stream, ""), limits);
    NowOverflowing(events, limits);
    var o, e, all := SinceDrain(events, Stdout), SinceDrain(events, Stderr), Everything(events);
    assert o + "" == o && e + "" == e && all + "" == all;
  }

  /** Pieces add up to the whole in every stream, and drop something when the whole does. */
  lemma {:induction false} PiecesMakeTheWhole(events: seq<Event>, stream: Stream, pieces: seq<string>, limits: Limits)
    ensures SameOutput(events + Writes(stream, pieces), events + [Wrote(stream, Flatten(pieces))], limits)
    decreases |pieces|
  {
    if pieces == [] {
      assert events + Writes(stream, pieces) == events;
      WriteNothing(events, stream, limits);
    } else {
      hide SameOutput;
      var init, last := pieces[..|pieces| - 1], pieces[|pieces| - 1];
      PiecesMakeTheWhole(events, stream, init, limits);
      var before, e := events + Writes(stream, init), Wrote(stream, last);
      assert events + Writes(stream, pieces) == before + [e];
      SameOutputStep(before, events + [Wrote(stream, Flatten(init))], e, limits);
      FlattenLast(pieces);
      WritesMerge(events, stream, Flatten(init), last, limits);
      SameOutputTransitive(before + [e], events + [Wrote(stream, Flatten(init))] + [e],
                           events + [Wrote(stream, Flatten(pieces))], limits);
    }
  }

  lemma SameOutputTransitive(a: seq<Event>, b: seq<Event>, c: seq<Event>, limits: Limits)
    requires SameOutput(a, b, limits) && SameOutput(b, c, limits)
    ensures SameOutput(a, c, limits)
  {
  }

  lemma NowOverflowing(events: seq<Event>, limits: Limits)
    ensures Overflows(events, limits) ==> EverDropped(events, limits)
  {
    assert events[..|events|] == events;
  }

  // ----- reading everything through drains -----

  /** What a reader gets of a stream: at each drain what is kept of it, and what is kept now. */
  function ReadSoFar(events: seq<Event>, stream: Stream, limits: Limits): string
  {
    if events == [] then ""
    else
      var before, last := events[..|events| - 1], events[|events| - 1];
      ReadSoFar(before, stream, limits)
      + if last.Drained? then LastN(SinceDrain(before, stream), limits.pendingCap) else ""
  }

  function Written(events: seq<Event>, stream: Stream): string
  {
    if events == [] then ""
    else
      var before, last := events[..|events| - 1], events[|events| - 1];
      Written(before, stream) + if last.Wrote? && last.stream == stream then last.text else ""
  }

  /** Unless something was dropped, the drained texts and the pending text are the whole stream. */
  lemma {:induction false} ReaderGetsEverything(events: seq<Event>, stream: Stream, limits: Limits)
    requires !EverDropped(events, limits)
    ensures ReadSoFar(events, stream, limits) + LastN(SinceDrain(events, stream), limits.pendingCap)
         == Written(events, stream)
    decreases |events|
  {
    if events != [] {
      var before, last := events[..|events| - 1], events[|events| - 1];
      assert events == before + [last];
      DroppedStep(before, last, limits);
      NowOverflowing(before, limits);
      ReaderGetsEverything(before, stream, limits);
      if last.Wrote? && last.stream == stream {
        Regroup(ReadSoFar(before, stream, limits), SinceDrain(before, stream), last.text);
      }
    }
  }
}
