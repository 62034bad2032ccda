/** Turning the chunks of an update hunk into replacements, and applying them to a file
    (`computeReplacements` and `applyUpdateHunk` in src/agents/apply-patch-update.ts). */
module PatchUpdate {
  import opened Collections
  import opened Text
  import opened LineSeek
  import opened Splicing
  import opened PatchLocate
  import opened PatchOrder

  // ----- the loops -----

  function Prepend(found: seq<Replacement>, r: Result<seq<Replacement>, UpdateError>)
    : Result<seq<Replacement>, UpdateError>
  {
    match r case Ok(rest) => Ok(found + rest) case Err(e) => Err(e)
  }

  lemma LocateNext(lines: seq<string>, chunks: seq<UpdateChunk>, i: nat, cursor: nat, found: seq<Replacement>)
    requires i < |chunks|
    ensures Prepend(found, LocateAll(lines, chunks[i..], cursor)) ==
      match Locate(lines, chunks[i], cursor)
      case Err(e) => Err(e)
      case Ok((r, next)) => Prepend(found + [r], LocateAll(lines, chunks[i + 1..], next))
  {
    assert chunks[i..][0] == chunks[i] && chunks[i..][1..] == chunks[i + 1..];
    match Locate(lines, chunks[i], cursor) {
      case Err(e) =>
      case Ok((r, next)) =>
        var rest := LocateAll(lines, chunks[i + 1..], next);
        if rest.Ok? {
          assert found + ([r] + rest.value) == found + [r] + rest.value;
        }
    }
  }

  method ComputeReplacements(originalLines: seq<string>, chunks: seq<UpdateChunk>)
    returns (r: Result<seq<Replacement>, UpdateError>)
    ensures r == match LocateAll(originalLines, chunks, 0)
                 case Ok(rs) => Ok(SortByStart(rs))
                 case Err(e) => Err(e)
    ensures r.Ok? && Plain(originalLines, chunks) ==> InOrder(r.value, 0, |originalLines|)
  {
    ghost var goal := LocateAll(originalLines, chunks, 0);
    var replacements: seq<Replacement> := [];
    var lineIndex := 0;
    var i := 0;
    assert chunks[0..] == chunks && (goal.Ok? ==> [] + goal.value == goal.value);
    while i < |chunks|
      invariant 0 <= i <= |chunks|
      invariant goal == Prepend(replacements, LocateAll(originalLines, chunks[i..], lineIndex))
    {
      LocateNext(originalLines, chunks, i, lineIndex, replacements);
      var located := LocateChunk(originalLines, chunks[i], lineIndex);
      if located.Err? {
        return Err(located.error);
      }
      replacements := replacements + [located.value.0];
      lineIndex := located.value.1;
      i := i + 1;
    }
    assert replacements + [] == replacements;
    if Plain(originalLines, chunks) {
      PlainReplacementsInOrder(originalLines, chunks);
    }
    return Ok(SortByStart(replacements));
  }

  /** The body of the loop over the chunks. */
  method LocateChunk(originalLines: seq<string>, chunk: UpdateChunk, cursor: nat)
    returns (r: Result<(Replacement, nat), UpdateError>)
    ensures r == Locate(originalLines, chunk, cursor)
  {
    var lineIndex := cursor;
    if chunk.changeContext.Some? && chunk.changeContext.value != "" {
      var ctxIndex := SeekSequence(originalLines, [chunk.changeContext.value], lineIndex, false);
      if ctxIndex.None? {
        return Err(ContextNotFound(chunk.changeContext.value));
      }
      lineIndex := ctxIndex.value + 1;
    }
    r := LocateOldLines(originalLines, chunk, lineIndex);
  }

  method LocateOldLines(originalLines: seq<string>, chunk: UpdateChunk, lineIndex: nat)
    returns (r: Result<(Replacement, nat), UpdateError>)
    ensures r == LocateLines(originalLines, chunk, lineIndex)
  {
    hide Seek, LocateShorter, InsertionIndex;
    if chunk.oldLines == [] {
      return Ok((Replacement(InsertionIndex(originalLines), 0, chunk.newLines), lineIndex));
    }
    var found := SeekSequence(originalLines, chunk.oldLines, lineIndex, chunk.isEndOfFile);
    if found.None? && EndsBlank(chunk.oldLines) {
      r := LocateWithoutBlank(originalLines, chunk, lineIndex);
      return;
    }
    if found.None? {
      return Err(LinesNotFound(chunk.oldLines));
    }
    return Ok((Replacement(found.value, |chunk.oldLines|, chunk.newLines), found.value + |chunk.oldLines|));
  }

  method LocateWithoutBlank(originalLines: seq<string>, chunk: UpdateChunk, lineIndex: nat)
    returns (r: Result<(Replacement, nat), UpdateError>)
    requires EndsBlank(chunk.oldLines)
    ensures r == LocateShorter(originalLines, chunk, lineIndex)
  {
    hide Seek;
    var pattern, newSlice := DropLast(chunk.oldLines), chunk.newLines;
    if EndsBlank(newSlice) {
      newSlice := DropLast(newSlice);
    }
    var found := SeekSequence(originalLines, pattern, lineIndex, chunk.isEndOfFile);
    if found.None? {
      return Err(LinesNotFound(chunk.oldLines));
    }
    return Ok((Replacement(found.value, |pattern|, newSlice), found.value + |pattern|));
  }

  // ----- whole files -----

  /** The lines of a file, without the empty piece behind a final newline. */
  function FileLines(contents: string): seq<string>
  {
    var lines := SplitLines(contents);
    if EndsBlank(lines) then DropLast(lines) else lines
  }

  function FileText(lines: seq<string>): string
  {
    Join(if EndsBlank(lines) then lines else lines + [""], "\n")
  }

  /** The new text of a file, or the error of locating the chunks. */
  function Updated(contents: string, chunks: seq<UpdateChunk>): Result<string, UpdateError>
  {
    var lines := FileLines(contents);
    match LocateAll(lines, chunks, 0)
    case Err(e) => Err(e)
    case Ok(rs) => Ok(FileText(SpliceAll(lines, SortByStart(rs))))
  }

  method ApplyUpdateHunk(contents: string, chunks: seq<UpdateChunk>) returns (r: Result<string, UpdateError>)
    ensures r == Updated(contents, chunks)
    ensures r.Ok? ==>
      var lines := FileLines(contents);
      var rs := SortByStart(LocateAll(lines, chunks, 0).value);
      && (Plain(lines, chunks) ==> InOrder(rs, 0, |lines|))
      && (InOrder(rs, 0, |lines|) ==> r.value == FileText(Substitute(lines, rs, 0)))
  {
    var originalLines := FileLines(contents);
    var replacements := ComputeReplacements(originalLines, chunks);
    if replacements.Err? {
      return Err(replacements.error);
    }
    var newLines := ApplyReplacements(originalLines, replacements.value);
    return Ok(FileText(newLines));
  }
}
