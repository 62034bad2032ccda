/** The parser's loops, proved to compute what `PatchParse` defines. */
module PatchParser {
  import opened Collections
  import opened Text
  import opened PatchLocate
  import opened PatchParse

  method ParsePatchText(input: string) returns (r: Result<seq<Hunk>, ParseError>)
    ensures r == Patch(input)
  {
    var trimmed := Trim(input);
    if trimmed == "" {
      return Err(EmptyInput);
    }
    var bounded := CheckPatchBoundariesLenient(PatchLines(trimmed));
    if bounded.Err? {
      return Err(bounded.error);
    }
    var validated := bounded.value;
    r := ParseHunks(validated[1..|validated| - 1]);
  }

  function Prepend(hunks: seq<Hunk>, r: Result<seq<Hunk>, ParseError>): Result<seq<Hunk>, ParseError>
  {
    match r case Ok(rest) => Ok(hunks + rest) case Err(e) => Err(e)
  }

  lemma NextHunk(lines: seq<string>, lineNumber: nat, hunks: seq<Hunk>)
    requires lines != []
    ensures Prepend(hunks, Hunks(lines, lineNumber)) ==
      match OneHunk(lines, lineNumber)
      case Err(e) => Err(e)
      case Ok((hunk, n)) => Prepend(hunks + [hunk], Hunks(lines[n..], lineNumber + n))
  {
    hide OneHunk;
    var one := OneHunk(lines, lineNumber);
    if one.Ok? {
      var (hunk, n) := one.value;
      var rest := Hunks(lines[n..], lineNumber + n);
      if rest.Ok? {
        assert hunks + ([hunk] + rest.value) == hunks + [hunk] + rest.value;
      }
    }
  }

  /** The loop of `parsePatchText`. */
  method ParseHunks(lines: seq<string>) returns (r: Result<seq<Hunk>, ParseError>)
    ensures r == Hunks(lines, 2)
  {
    hide OneHunk;
    var hunks: seq<Hunk> := [];
    var remaining := lines;
    var lineNumber := 2;
    ghost var goal := Hunks(lines, 2);
    assert goal.Ok? ==> [] + goal.value == goal.value;
    while |remaining| > 0
      invariant goal == Prepend(hunks, Hunks(remaining, lineNumber))
      decreases |remaining|
    {
      NextHunk(remaining, lineNumber, hunks);
      var one := ParseOneHunk(remaining, lineNumber);
      if one.Err? {
        return Err(one.error);
      }
      var (hunk, consumed) := one.value;
      hunks := hunks + [hunk];
      lineNumber := lineNumber + consumed;
      remaining := remaining[consumed..];
    }
    assert hunks + [] == hunks;
    return Ok(hunks);
  }

  method CheckPatchBoundariesStrict(lines: seq<string>) returns (error: Option<ParseError>)
    requires lines != []
    ensures error == BoundaryError(lines)
  {
    var firstLine, lastLine := Trim(lines[0]), Trim(lines[|lines| - 1]);
    if firstLine == BEGIN_PATCH && lastLine == END_PATCH {
      return None;
    }
    if firstLine != BEGIN_PATCH {
      return Some(BadFirstLine);
    }
    return Some(BadLastLine);
  }

  method CheckPatchBoundariesLenient(lines: seq<string>) returns (r: Result<seq<string>, ParseError>)
    requires lines != []
    ensures r == Boundaries(lines)
  {
    var strictError := CheckPatchBoundariesStrict(lines);
    if strictError.None? {
      return Ok(lines);
    }
    if |lines| < 4 {
      return Err(strictError.value);
    }
    if IsHeredoc(lines) {
      var inner := lines[1..|lines| - 1];
      var innerError := CheckPatchBoundariesStrict(inner);
      if innerError.None? {
        return Ok(inner);
      }
      return Err(innerError.value);
    }
    return Err(strictError.value);
  }

  method ParseOneHunk(lines: seq<string>, lineNumber: nat) returns (r: Result<(Hunk, nat), ParseError>)
    requires lines != []
    ensures r == OneHunk(lines, lineNumber)
  {
    var firstLine := Trim(lines[0]);
    if StartsWith(firstLine, ADD_FILE) {
      var contents, consumed := CollectAddedLines(lines[1..]);
      return Ok((AddFile(firstLine[|ADD_FILE|..], contents), consumed + 1));
    }
    if StartsWith(firstLine, DELETE_FILE) {
      return Ok((DeleteFile(firstLine[|DELETE_FILE|..]), 1));
    }
    if StartsWith(firstLine, UPDATE_FILE) {
      r := ParseUpdateHunk(lines, lineNumber, firstLine[|UPDATE_FILE|..]);
      return;
    }
    return Err(BadHeader(lineNumber));
  }

  method CollectAddedLines(lines: seq<string>) returns (contents: string, consumed: nat)
    ensures (contents, consumed) == AddedLines(lines)
  {
    hide AddedLines;
    contents, consumed := "", 0;
    NothingAdded(AddedLines(lines).0);
    assert lines[0..] == lines;
    while consumed < |lines| && StartsWith(lines[consumed], "+")
      invariant consumed <= |lines|
      invariant AddedLines(lines).0 == contents + AddedLines(lines[consumed..]).0
      invariant AddedLines(lines).1 == consumed + AddedLines(lines[consumed..]).1
    {
      NextAdded(lines, consumed);
      Regroup(contents, lines[consumed][1..] + "\n", AddedLines(lines[consumed + 1..]).0);
      contents := contents + (lines[consumed][1..] + "\n");
      consumed := consumed + 1;
    }
    NoneAdded(lines[consumed..]);
    NothingAdded(contents);
  }

  lemma NextAdded(lines: seq<string>, n: nat)
    requires n < |lines| && StartsWith(lines[n], "+")
    ensures AddedLines(lines[n..]).0 == lines[n][1..] + "\n" + AddedLines(lines[n + 1..]).0
    ensures AddedLines(lines[n..]).1 == 1 + AddedLines(lines[n + 1..]).1
  {
    assert lines[n..][1..] == lines[n + 1..];
  }

  lemma NoneAdded(lines: seq<string>)
    requires lines != [] ==> !StartsWith(lines[0], "+")
    ensures AddedLines(lines).0 == "" && AddedLines(lines).1 == 0
  {
  }

  method ParseUpdateHunk(lines: seq<string>, lineNumber: nat, path: string) returns (r: Result<(Hunk, nat), ParseError>)
    requires lines != []
    ensures r == UpdateHunk(lines, lineNumber, path)
  {
    hide Chunks, Trim;
    var consumed := 1;
    var movePath: Option<string> := None;
    var moveCandidate := if |lines| > 1 then Trim(lines[1]) else "";
    if StartsWith(moveCandidate, MOVE_TO) {
      movePath := Some(moveCandidate[|MOVE_TO|..]);
      consumed := 2;
    }
    var parsed := ParseChunks(lines[consumed..], lineNumber + consumed);
    if parsed.Err? {
      return Err(parsed.error);
    }
    var (chunks, n) := parsed.value;
    if |chunks| == 0 {
      return Err(EmptyUpdate(lineNumber));
    }
    return Ok((UpdateFile(path, movePath, chunks), consumed + n));
  }

  function Consume(n: nat, r: Result<(seq<UpdateChunk>, nat), ParseError>): Result<(seq<UpdateChunk>, nat), ParseError>
  {
    match r case Ok((all, m)) => Ok((all, n + m)) case Err(e) => Err(e)
  }

  lemma NextChunk(lines: seq<string>, lineNumber: nat, chunks: seq<UpdateChunk>, consumed: nat)
    requires lines != []
    ensures Consume(consumed, Chunks(lines, lineNumber, chunks)) ==
      if Trim(lines[0]) == "" then Consume(consumed + 1, Chunks(lines[1..], lineNumber + 1, chunks))
      else if StartsWith(lines[0], "***") then Ok((chunks, consumed))
      else match Chunk(lines, lineNumber, chunks == [])
        case Err(e) => Err(e)
        case Ok((chunk, n)) => Consume(consumed + n, Chunks(lines[n..], lineNumber + n, chunks + [chunk]))
  {
    hide Chunk, Trim;
  }

  lemma NoMoreChunks(lineNumber: nat, chunks: seq<UpdateChunk>)
    ensures Chunks([], lineNumber, chunks) == Ok((chunks, 0))
  {
  }

  /** The loop over the chunks of an update hunk. */
  method ParseChunks(lines: seq<string>, lineNumber: nat) returns (r: Result<(seq<UpdateChunk>, nat), ParseError>)
    ensures r == Chunks(lines, lineNumber, [])
  {
    hide Chunk, Chunks, Trim, StartsWith;
    var chunks: seq<UpdateChunk> := [];
    var remaining := lines;
    var consumed := 0;
    ghost var goal := Chunks(lines, lineNumber, []);
    while |remaining| > 0
      invariant goal == Consume(consumed, Chunks(remaining, lineNumber + consumed, chunks))
      decreases |remaining|
    {
      NextChunk(remaining, lineNumber + consumed, chunks, consumed);
      if Trim(remaining[0]) == "" {
        remaining := remaining[1..];
        consumed := consumed + 1;
      } else if StartsWith(remaining[0], "***") {
        return Ok((chunks, consumed));
      } else {
        var parsed := ParseUpdateFileChunk(remaining, lineNumber + consumed, |chunks| == 0);
        if parsed.Err? {
          return Err(parsed.error);
        }
        var (chunk, chunkLines) := parsed.value;
        chunks := chunks + [chunk];
        remaining := remaining[chunkLines..];
        consumed := consumed + chunkLines;
      }
    }
    NoMoreChunks(lineNumber + consumed, chunks);
    return Ok((chunks, consumed));
  }

  method ParseUpdateFileChunk(lines: seq<string>, lineNumber: nat, allowMissingContext: bool)
    returns (r: Result<(UpdateChunk, nat), ParseError>)
    ensures r == Chunk(lines, lineNumber, allowMissingContext)
  {
    if |lines| == 0 {
      return Err(NoLines(lineNumber));
    }
    var changeContext: Option<string> := None;
    var startIndex := 0;
    if lines[0] == NO_CONTEXT {
      startIndex := 1;
    } else if StartsWith(lines[0], CONTEXT) {
      changeContext := Some(lines[0][|CONTEXT|..]);
      startIndex := 1;
    } else if !allowMissingContext {
      return Err(MissingContext(lineNumber));
    }
    if startIndex >= |lines| {
      return Err(NoLines(lineNumber + 1));
    }
    var body := ParseChunkBody(lines[startIndex..], UpdateChunk(changeContext, [], [], false), lineNumber);
    if body.Err? {
      return Err(body.error);
    }
    return Ok((body.value.0, body.value.1 + startIndex));
  }

  /** The loop over the lines of a chunk. */
  method ParseChunkBody(lines: seq<string>, empty: UpdateChunk, lineNumber: nat)
    returns (r: Result<(UpdateChunk, nat), ParseError>)
    ensures r == ChunkBody(lines, 0, empty, lineNumber)
  {
    var chunk := empty;
    var parsedLines := 0;
    ghost var goal := ChunkBody(lines, 0, empty, lineNumber);
    assert lines[0..] == lines;
    while parsedLines < |lines|
      invariant 0 <= parsedLines <= |lines|
      invariant goal == ChunkBody(lines[parsedLines..], parsedLines, chunk, lineNumber)
    {
      var line := lines[parsedLines];
      assert lines[parsedLines..][1..] == lines[parsedLines + 1..];
      if line == END_OF_FILE {
        if parsedLines == 0 {
          return Err(NoLines(lineNumber + 1));
        }
        return Ok((chunk.(isEndOfFile := true), parsedLines + 1));
      }
      if line == "" {
        chunk := chunk.(oldLines := chunk.oldLines + [""], newLines := chunk.newLines + [""]);
      } else if line[0] == ' ' {
        chunk := chunk.(oldLines := chunk.oldLines + [line[1..]], newLines := chunk.newLines + [line[1..]]);
      } else if line[0] == '+' {
        chunk := chunk.(newLines := chunk.newLines + [line[1..]]);
      } else if line[0] == '-' {
        chunk := chunk.(oldLines := chunk.oldLines + [line[1..]]);
      } else if parsedLines == 0 {
        return Err(UnexpectedLine(lineNumber + 1));
      } else {
        return Ok((chunk, parsedLines));
      }
      parsedLines := parsedLines + 1;
    }
    return Ok((chunk, parsedLines));
  }
}
