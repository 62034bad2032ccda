/** The patch parser (`parsePatchText` and below in src/agents/apply-patch.ts). */
module PatchParse {
  import opened Collections
  import opened Text
  import opened PatchLocate

  const BEGIN_PATCH: string := "*** Begin Patch"
  const END_PATCH: string := "*** End Patch"
  const ADD_FILE: string := "*** Add File: "
  const DELETE_FILE: string := "*** Delete File: "
  const UPDATE_FILE: string := "*** Update File: "
  const MOVE_TO: string := "*** Move to: "
  const END_OF_FILE: string := "*** End of File"
  const CONTEXT: string := "@@ "
  const NO_CONTEXT: string := "@@"

  datatype Hunk =
    | AddFile(path: string, contents: string)
    | DeleteFile(path: string)
    | UpdateFile(path: string, movePath: Option<string>, chunks: seq<UpdateChunk>)

  /** The errors thrown; those about a hunk carry the line number in their message. */
  datatype ParseError =
    | EmptyInput
    | BadFirstLine
    | BadLastLine
    | BadHeader(line: nat)
    | EmptyUpdate(line: nat)
    | NoLines(line: nat)
    | MissingContext(line: nat)
    | UnexpectedLine(line: nat)

  // ----- chunks -----

  /** The lines of a chunk behind its context marker, `n` of them taken already. */
  function ChunkBody(lines: seq<string>, n: nat, chunk: UpdateChunk, lineNumber: nat)
    : (r: Result<(UpdateChunk, nat), ParseError>)
    ensures r.Ok? ==> n <= r.value.1 <= n + |lines| && (lines != [] ==> r.value.1 >= 1)
    decreases |lines|
  {
    if lines == [] then Ok((chunk, n))
    else
      var line := lines[0];
      if line == END_OF_FILE then
        if n == 0 then Err(NoLines(lineNumber + 1)) else Ok((chunk.(isEndOfFile := true), n + 1))
      else if line == "" then
        ChunkBody(lines[1..], n + 1,
                  chunk.(oldLines := chunk.oldLines + [""], newLines := chunk.newLines + [""]), lineNumber)
      else if line[0] == ' ' then
        ChunkBody(lines[1..], n + 1,
                  chunk.(oldLines := chunk.oldLines + [line[1..]], newLines := chunk.newLines + [line[1..]]),
                  lineNumber)
      else if line[0] == '+' then
        ChunkBody(lines[1..], n + 1, chunk.(newLines := chunk.newLines + [line[1..]]), lineNumber)
      else if line[0] == '-' then
        ChunkBody(lines[1..], n + 1, chunk.(oldLines := chunk.oldLines + [line[1..]]), lineNumber)
      else if n == 0 then Err(UnexpectedLine(lineNumber + 1))
      else Ok((chunk, n))
  }

  function Chunk(lines: seq<string>, lineNumber: nat, allowMissingContext: bool)
    : (r: Result<(UpdateChunk, nat), ParseError>)
    ensures r.Ok? ==> 1 <= r.value.1 <= |lines|
  {
    if lines == [] then Err(NoLines(lineNumber))
    else
      var plain := lines[0] == NO_CONTEXT;
      var named := !plain && StartsWith(lines[0], CONTEXT);
      if !plain && !named && !allowMissingContext then Err(MissingContext(lineNumber))
      else
        var startIndex := if plain || named then 1 else 0;
        if startIndex >= |lines| then Err(NoLines(lineNumber + 1))
        else
          var context := if named then Some(lines[0][|CONTEXT|..]) else None;
          match ChunkBody(lines[startIndex..], 0, UpdateChunk(context, [], [], false), lineNumber)
          case Err(e) => Err(e)
          case Ok((chunk, n)) => Ok((chunk, n + startIndex))
  }

  /** The chunks of an update hunk; `have` are those parsed already. */
  function Chunks(lines: seq<string>, lineNumber: nat, have: seq<UpdateChunk>)
    : (r: Result<(seq<UpdateChunk>, nat), ParseError>)
    ensures r.Ok? ==> r.value.1 <= |lines|
    decreases |lines|
  {
    if lines == [] then Ok((have, 0))
    else if Trim(lines[0]) == "" then
      match Chunks(lines[1..], lineNumber + 1, have)
      case Err(e) => Err(e)
      case Ok((all, n)) => Ok((all, n + 1))
    else if StartsWith(lines[0], "***") then Ok((have, 0))
    else match Chunk(lines, lineNumber, have == [])
      case Err(e) => Err(e)
      case Ok((chunk, n)) =>
        match Chunks(lines[n..], lineNumber + n, have + [chunk])
        case Err(e) => Err(e)
        case Ok((all, m)) => Ok((all, n + m))
  }

  // ----- hunks -----

  /** The added lines at the beginning, with their newlines, and how many they are. */
  function AddedLines(lines: seq<string>): (r: (string, nat))
    ensures r.1 <= |lines|
  {
    if lines == [] || !StartsWith(lines[0], "+") then ("", 0)
    else
      var (contents, n) := AddedLines(lines[1..]);
      (lines[0][1..] + "\n" + contents, n + 1)
  }

  function UpdateHunk(lines: seq<string>, lineNumber: nat, path: string): (r: Result<(Hunk, nat), ParseError>)
    requires lines != []
    ensures r.Ok? ==> 1 <= r.value.1 <= |lines|
  {
    var candidate := if |lines| > 1 then Trim(lines[1]) else "";
    var moves := StartsWith(candidate, MOVE_TO);
    var movePath := if moves then Some(candidate[|MOVE_TO|..]) else None;
    var consumed := if moves then 2 else 1;
    match Chunks(lines[consumed..], lineNumber + consumed, [])
    case Err(e) => Err(e)
    case Ok((chunks, n)) =>
      if chunks == [] then Err(EmptyUpdate(lineNumber)) else Ok((UpdateFile(path, movePath, chunks), consumed + n))
  }

  /** A hunk takes between one and all of the lines. */
  function OneHunk(lines: seq<string>, lineNumber: nat): (r: Result<(Hunk, nat), ParseError>)
    requires lines != []
    ensures r.Ok? ==> 1 <= r.value.1 <= |lines|
  {
    var first := Trim(lines[0]);
    if StartsWith(first, ADD_FILE) then
      var (contents, n) := AddedLines(lines[1..]);
      Ok((AddFile(first[|ADD_FILE|..], contents), n + 1))
    else if StartsWith(first, DELETE_FILE) then Ok((DeleteFile(first[|DELETE_FILE|..]), 1))
    else if StartsWith(first, UPDATE_FILE) then UpdateHunk(lines, lineNumber, first[|UPDATE_FILE|..])
    else Err(BadHeader(lineNumber))
  }

  function Hunks(lines: seq<string>, lineNumber: nat): Result<seq<Hunk>, ParseError>
    decreases |lines|
  {
    if lines == [] then Ok([])
    else match OneHunk(lines, lineNumber)
      case Err(e) => Err(e)
      case Ok((hunk, n)) =>
        match Hunks(lines[n..], lineNumber + n)
        case Err(e) => Err(e)
        case Ok(rest) => Ok([hunk] + rest)
  }

  // ----- the whole patch -----

  function BoundaryError(lines: seq<string>): Option<ParseError>
    requires lines != []
  {
    if Trim(lines[0]) != BEGIN_PATCH then Some(BadFirstLine)
    else if Trim(lines[|lines| - 1]) != END_PATCH then Some(BadLastLine)
    else None
  }

  predicate IsHeredoc(lines: seq<string>)
    requires lines != []
  {
    && (lines[0] == "<<EOF" || lines[0] == "<<'EOF'" || lines[0] == "<<\"EOF\"")
    && EndsWith(lines[|lines| - 1], "EOF")
  }

  lemma MarkersDiffer()
    ensures BEGIN_PATCH != END_PATCH
  {
    assert BEGIN_PATCH[4] == 'B' && END_PATCH[4] == 'E';
  }

  /** The lines from the begin to the end marker, also out of a here-document. */
  function Boundaries(lines: seq<string>): (r: Result<seq<string>, ParseError>)
    requires lines != []
    ensures r.Ok? ==> |r.value| >= 2
  {
    match BoundaryError(lines)
    case None =>
      MarkersDiffer();
      Ok(lines)
    case Some(e) =>
      if |lines| < 4 || !IsHeredoc(lines) then Err(e)
      else
        var inner := lines[1..|lines| - 1];
        match BoundaryError(inner)
        case None =>
          MarkersDiffer();
          Ok(inner)
        case Some(innerError) => Err(innerError)
  }

  /** A trailing carriage return belongs to the line break. */
  function WithoutCr(line: string): string
  {
    if line != "" && line[|line| - 1] == '\r' then line[..|line| - 1] else line
  }

  function WithoutCrs(lines: seq<string>): (r: seq<string>)
    ensures |r| == |lines|
  {
    if |lines| <= 1 then lines else [WithoutCr(lines[0])] + WithoutCrs(lines[1..])
  }

  /** `text.split(/\r?\n/)`. */
  function PatchLines(text: string): (r: seq<string>)
    ensures r != []
  {
    WithoutCrs(SplitLines(text))
  }

  function Patch(input: string): Result<seq<Hunk>, ParseError>
  {
    var trimmed := Trim(input);
    if trimmed == "" then Err(EmptyInput)
    else match Boundaries(PatchLines(trimmed))
      case Err(e) => Err(e)
      case Ok(validated) => Hunks(validated[1..|validated| - 1], 2)
  }
}
