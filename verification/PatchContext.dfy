/** Where exactly a chunk goes: behind its context line, at the first place where its old lines
    are found (`computeReplacements` in src/agents/apply-patch-update.ts). */
module PatchContext {
  import opened Collections
  import opened Text
  import opened LineSeek
  import opened Splicing
  import opened PatchLocate

  /** The pattern matches nowhere in the window, not even trimmed and folded. */
  ghost predicate Nowhere(lines: seq<string>, pattern: seq<string>, from: nat, eof: bool)
  {
    forall i: nat :: InWindow(lines, pattern, from, eof, i) ==> !MatchesAt(lines, pattern, i, Folded)
  }

  /** `at` is the least place of the strictest tier at which the pattern matches. */
  ghost predicate BestMatch(lines: seq<string>, pattern: seq<string>, from: nat, eof: bool, at: nat)
  {
    exists u: Tier :: StrictestThenFirst(lines, pattern, from, eof, at, u)
  }

  lemma SeekIsBest(lines: seq<string>, pattern: seq<string>, from: nat, eof: bool)
    requires pattern != []
    ensures var r := Seek(lines, pattern, from, eof);
      && (r.Some? ==> BestMatch(lines, pattern, from, eof, r.value))
      && (r.None? <==> Nowhere(lines, pattern, from, eof))
  {
    SeekFindsStrictestThenFirst(lines, pattern, from, eof);
  }

  /** There is at most one best match. */
  lemma BestIsUnique(lines: seq<string>, pattern: seq<string>, from: nat, eof: bool, at: nat, other: nat)
    requires BestMatch(lines, pattern, from, eof, at) && BestMatch(lines, pattern, from, eof, other)
    ensures at == other
  {
    hide MatchesAt;
    var u: Tier :| StrictestThenFirst(lines, pattern, from, eof, at, u);
    var v: Tier :| StrictestThenFirst(lines, pattern, from, eof, other, v);
  }

  /** The lines without a blank last one. */
  function Shorter(lines: seq<string>): seq<string>
  {
    if lines != [] && lines[|lines| - 1] == "" then lines[..|lines| - 1] else lines
  }

  /** All of the old lines are replaced, at their best match. */
  ghost predicate ReplacesAll(lines: seq<string>, chunk: UpdateChunk, from: nat, r: Replacement)
  {
    && r.oldLen == |chunk.oldLines| && r.newLines == chunk.newLines
    && BestMatch(lines, chunk.oldLines, from, chunk.isEndOfFile, r.start)
  }

  /** The old lines are nowhere, and end in a blank line: what is before it is replaced, at its
      best match, by the new lines without a blank last one. A single blank old line leaves
      nothing to look for. */
  ghost predicate ReplacesShorter(lines: seq<string>, chunk: UpdateChunk, from: nat, r: Replacement)
  {
    && Nowhere(lines, chunk.oldLines, from, chunk.isEndOfFile)
    && r.oldLen + 1 == |chunk.oldLines| && |Shorter(chunk.oldLines)| == r.oldLen
    && r.newLines == Shorter(chunk.newLines)
    && (if r.oldLen == 0 then r.start == from
        else BestMatch(lines, Shorter(chunk.oldLines), from, chunk.isEndOfFile, r.start))
  }

  /** Where a chunk goes from a given line on. Without old lines it is inserted at the end, in
      front of a blank last line, and the cursor stays. Otherwise its old lines are replaced, all
      or shortened, and the cursor is behind them; or neither is anywhere to be found. */
  ghost predicate PlacedFrom(lines: seq<string>, chunk: UpdateChunk, from: nat,
                             result: Result<(Replacement, nat), UpdateError>)
  {
    if chunk.oldLines == [] then
      result == Ok((Replacement(|Shorter(lines)|, 0, chunk.newLines), from))
    else
      match result
      case Ok((r, next)) =>
        next == r.start + r.oldLen && (ReplacesAll(lines, chunk, from, r) || ReplacesShorter(lines, chunk, from, r))
      case Err(e) =>
        && e == LinesNotFound(chunk.oldLines)
        && Nowhere(lines, chunk.oldLines, from, chunk.isEndOfFile)
        && (Shorter(chunk.oldLines) != chunk.oldLines ==>
              |chunk.oldLines| > 1 && Nowhere(lines, Shorter(chunk.oldLines), from, chunk.isEndOfFile))
  }

  lemma LinesArePlaced(lines: seq<string>, chunk: UpdateChunk, from: nat)
    ensures PlacedFrom(lines, chunk, from, LocateLines(lines, chunk, from))
  {
    hide Seek, BestMatch, Nowhere;
    if chunk.oldLines != [] {
      SeekIsBest(lines, chunk.oldLines, from, chunk.isEndOfFile);
      if EndsBlank(chunk.oldLines) {
        var shorter := DropLast(chunk.oldLines);
        if shorter != [] {
          SeekIsBest(lines, shorter, from, chunk.isEndOfFile);
        } else {
          SeekNothing(lines, from, chunk.isEndOfFile);
        }
      }
    }
  }

  lemma SeekNothing(lines: seq<string>, from: nat, eof: bool)
    ensures Seek(lines, [], from, eof) == Some(from)
  {
  }

  /** Without a context line a chunk goes where it fits from the cursor on. */
  lemma WithoutContext(lines: seq<string>, chunk: UpdateChunk, cursor: nat)
    requires chunk.changeContext.None? || chunk.changeContext.value == ""
    ensures PlacedFrom(lines, chunk, cursor, Locate(lines, chunk, cursor))
  {
    hide LocateLines, PlacedFrom;
    LinesArePlaced(lines, chunk, cursor);
  }

  /** A context line that matches nowhere from the cursor on, not even trimmed and folded, is the
      error, and the only reason for it. Otherwise the chunk goes where it fits behind the
      context line's best match. */
  lemma BehindContext(lines: seq<string>, chunk: UpdateChunk, cursor: nat, context: string)
    requires chunk.changeContext == Some(context) && context != ""
    ensures Locate(lines, chunk, cursor) == Err(ContextNotFound(context)) <==> Nowhere(lines, [context], cursor, false)
    ensures forall j: nat :: BestMatch(lines, [context], cursor, false, j) ==>
              PlacedFrom(lines, chunk, j + 1, Locate(lines, chunk, cursor))
    ensures Nowhere(lines, [context], cursor, false) || exists j: nat :: BestMatch(lines, [context], cursor, false, j)
  {
    hide LocateLines, Seek, BestMatch, Nowhere;
    SeekIsBest(lines, [context], cursor, false);
    var found := Seek(lines, [context], cursor, false);
    if found.Some? {
      LinesArePlaced(lines, chunk, found.value + 1);
    }
    forall j: nat | BestMatch(lines, [context], cursor, false, j)
      ensures found == Some(j)
    {
      BestIsSomewhere(lines, [context], cursor, false, j);
      if found.Some? {
        BestIsUnique(lines, [context], cursor, false, j, found.value);
      }
    }
  }

  lemma BestIsSomewhere(lines: seq<string>, pattern: seq<string>, from: nat, eof: bool, at: nat)
    requires BestMatch(lines, pattern, from, eof, at)
    ensures !Nowhere(lines, pattern, from, eof)
  {
    hide MatchesAt;
    var u: Tier :| StrictestThenFirst(lines, pattern, from, eof, at, u);
    LooserTiersMatch(lines, pattern, at, u, Folded);
  }

  /** The replacements of all chunks, each placed from the cursor the chunk before it leaves. */
  ghost predicate Chained(lines: seq<string>, chunks: seq<UpdateChunk>, cursors: seq<nat>, rs: seq<Replacement>)
  {
    && |rs| == |chunks| && |cursors| == |chunks| + 1 && cursors[0] == 0
    && forall k :: 0 <= k < |chunks| ==> Locate(lines, chunks[k], cursors[k]) == Ok((rs[k], cursors[k + 1]))
  }

  lemma {:induction false} ChainFrom(lines: seq<string>, chunks: seq<UpdateChunk>, cursor: nat)
    returns (cursors: seq<nat>)
    requires LocateAll(lines, chunks, cursor).Ok?
    ensures var rs := LocateAll(lines, chunks, cursor).value;
      && |rs| == |chunks| && |cursors| == |chunks| + 1 && cursors[0] == cursor
      && forall k :: 0 <= k < |chunks| ==> Locate(lines, chunks[k], cursors[k]) == Ok((rs[k], cursors[k + 1]))
    decreases |chunks|
  {
    hide Locate;
    if chunks == [] {
      cursors := [cursor];
    } else {
      var (r, next) := Locate(lines, chunks[0], cursor).value;
      var more := ChainFrom(lines, chunks[1..], next);
      cursors := [cursor] + more;
    }
  }

  /** The chunks are placed one after the other, each from where the one before it ended. */
  lemma ChunksAreChained(lines: seq<string>, chunks: seq<UpdateChunk>)
    requires LocateAll(lines, chunks, 0).Ok?
    ensures exists cursors :: Chained(lines, chunks, cursors, LocateAll(lines, chunks, 0).value)
  {
    var cursors := ChainFrom(lines, chunks, 0);
    assert Chained(lines, chunks, cursors, LocateAll(lines, chunks, 0).value);
  }

  /** The error is that of the first chunk that cannot be placed, from where the one before it
      ended. */
  lemma {:induction false} FirstErrorCounts(lines: seq<string>, chunks: seq<UpdateChunk>, cursor: nat)
    returns (k: nat, cursors: seq<nat>)
    requires LocateAll(lines, chunks, cursor).Err?
    ensures k < |chunks| && |cursors| == k + 1 && cursors[0] == cursor
    ensures forall i :: 0 <= i < k ==>
              Locate(lines, chunks[i], cursors[i]).Ok? && Locate(lines, chunks[i], cursors[i]).value.1 == cursors[i + 1]
    ensures Locate(lines, chunks[k], cursors[k]) == Err(LocateAll(lines, chunks, cursor).error)
    decreases |chunks|
  {
    hide Locate;
    if Locate(lines, chunks[0], cursor).Err? {
      k, cursors := 0, [cursor];
    } else {
      var next := Locate(lines, chunks[0], cursor).value.1;
      var more;
      k, more := FirstErrorCounts(lines, chunks[1..], next);
      cursors := [cursor] + more;
      k := k + 1;
    }
  }
}
