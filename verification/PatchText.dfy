/** Patches as text: what can be written, how it is written, and what it means. */
module PatchText {
  import opened Collections
  import opened Text
  import opened PatchLocate
  import opened PatchParse

  /** A line of a chunk as a patch writes it. */
  datatype PatchLine = Keep(text: string) | Add(text: string) | Remove(text: string)

  /** A chunk with its context marker, or without one, as the first of a hunk may be. */
  datatype ChunkText = ChunkText(marked: bool, context: Option<string>, body: seq<PatchLine>, endOfFile: bool)

  datatype HunkText =
    | AddText(path: string, added: seq<string>)
    | DeleteText(path: string)
    | UpdateText(path: string, moveTo: Option<string>, chunks: seq<ChunkText>)

  // ----- what a patch means -----

  function OldPart(l: PatchLine): seq<string> { if l.Add? then [] else [l.text] }

  function NewPart(l: PatchLine): seq<string> { if l.Remove? then [] else [l.text] }

  function OldOf(body: seq<PatchLine>): seq<string>
  {
    if body == [] then [] else OldPart(body[0]) + OldOf(body[1..])
  }

  function NewOf(body: seq<PatchLine>): seq<string>
  {
    if body == [] then [] else NewPart(body[0]) + NewOf(body[1..])
  }

  function ChunkMeaning(c: ChunkText): UpdateChunk
  {
    UpdateChunk(c.context, OldOf(c.body), NewOf(c.body), c.endOfFile)
  }

  function ChunkMeanings(chunks: seq<ChunkText>): (r: seq<UpdateChunk>)
    ensures |r| == |chunks|
  {
    if chunks == [] then [] else [ChunkMeaning(chunks[0])] + ChunkMeanings(chunks[1..])
  }

  function AddedText(added: seq<string>): string
  {
    if added == [] then "" else added[0] + "\n" + AddedText(added[1..])
  }

  function Meaning(h: HunkText): Hunk
  {
    match h
    case AddText(path, added) => AddFile(path, AddedText(added))
    case DeleteText(path) => DeleteFile(path)
    case UpdateText(path, moveTo, chunks) => UpdateFile(path, moveTo, ChunkMeanings(chunks))
  }

  function Meanings(hunks: seq<HunkText>): seq<Hunk>
  {
    if hunks == [] then [] else [Meaning(hunks[0])] + Meanings(hunks[1..])
  }

  // ----- how it is written -----

  function PrintLine(l: PatchLine): string
  {
    match l case Keep(t) => " " + t case Add(t) => "+" + t case Remove(t) => "-" + t
  }

  function PrintBody(body: seq<PatchLine>): (r: seq<string>)
    ensures |r| == |body|
  {
    if body == [] then [] else [PrintLine(body[0])] + PrintBody(body[1..])
  }

  function PrintContext(context: Option<string>): string
  {
    if context.Some? then CONTEXT + context.value else NO_CONTEXT
  }

  function PrintMarker(c: ChunkText): seq<string>
  {
    if c.marked then [PrintContext(c.context)] else []
  }

  function PrintChunk(c: ChunkText): (r: seq<string>)
    ensures |r| == (if c.marked then 1 else 0) + |c.body| + (if c.endOfFile then 1 else 0)
  {
    PrintMarker(c) + PrintBody(c.body) + if c.endOfFile then [END_OF_FILE] else []
  }

  function PrintChunks(chunks: seq<ChunkText>): seq<string>
  {
    if chunks == [] then [] else PrintChunk(chunks[0]) + PrintChunks(chunks[1..])
  }

  function PrintAdded(added: seq<string>): (r: seq<string>)
    ensures |r| == |added|
  {
    if added == [] then [] else ["+" + added[0]] + PrintAdded(added[1..])
  }

  function PrintHunk(h: HunkText): seq<string>
  {
    match h
    case AddText(path, added) => [ADD_FILE + path] + PrintAdded(added)
    case DeleteText(path) => [DELETE_FILE + path]
    case UpdateText(path, moveTo, chunks) =>
      [UPDATE_FILE + path] + (if moveTo.Some? then [MOVE_TO + moveTo.value] else []) + PrintChunks(chunks)
  }

  function PrintHunks(hunks: seq<HunkText>): seq<string>
  {
    if hunks == [] then [] else PrintHunk(hunks[0]) + PrintHunks(hunks[1..])
  }

  function PatchLinesOf(hunks: seq<HunkText>): seq<string>
  {
    [BEGIN_PATCH] + PrintHunks(hunks) + [END_PATCH]
  }

  /** A line with the carriage return that belongs to its line break: in a text whose lines
      all have one, and behind a line that itself ends in one. */
  function Written(line: string, crlf: bool): string
  {
    if crlf || EndsWith(line, "\r") then line + "\r" else line
  }

  /** Nothing follows the last line. */
  function WrittenLines(lines: seq<string>, crlf: bool): (r: seq<string>)
    ensures |r| == |lines|
  {
    if |lines| <= 1 then lines else [Written(lines[0], crlf)] + WrittenLines(lines[1..], crlf)
  }

  /** The text of the lines, with newlines between them or with carriage returns as well. */
  function TextOf(lines: seq<string>, crlf: bool): string
  {
    Join(WrittenLines(lines, crlf), "\n")
  }

  function PrintPatch(hunks: seq<HunkText>, crlf: bool): string
  {
    TextOf(PatchLinesOf(hunks), crlf)
  }

  /** A here-document may be opened with or without quotes. */
  predicate IsOpener(line: string) { line == "<<EOF" || line == "<<'EOF'" || line == "<<\"EOF\"" }

  function PrintHeredoc(opener: string, hunks: seq<HunkText>, closer: string, crlf: bool): string
  {
    TextOf([opener] + PatchLinesOf(hunks) + [closer], crlf)
  }

  // ----- what can be written -----

  /** A path: not empty, on one line, not ending in white space. */
  predicate PathOk(p: string)
  {
    p != "" && OneLine(p) && !IsSpace(p[|p| - 1])
  }

  predicate ChunkOk(c: ChunkText)
  {
    && (c.context.Some? ==> c.marked && OneLine(c.context.value))
    && c.body != [] && (forall i :: 0 <= i < |c.body| ==> OneLine(c.body[i].text))
  }

  /** The first line of a hunk's chunks can be told from a blank line and from a move. */
  predicate FirstLineOk(c: ChunkText, moved: bool)
    requires c.body != []
  {
    c.marked || (var line := Trim(PrintLine(c.body[0])); line != "" && (moved || !StartsWith(line, MOVE_TO)))
  }

  predicate HunkOk(h: HunkText)
  {
    match h
    case AddText(path, added) => PathOk(path) && forall i :: 0 <= i < |added| ==> OneLine(added[i])
    case DeleteText(path) => PathOk(path)
    case UpdateText(path, moveTo, chunks) =>
      && PathOk(path) && (moveTo.Some? ==> PathOk(moveTo.value))
      && chunks != [] && (forall i :: 0 <= i < |chunks| ==> ChunkOk(chunks[i]))
      && FirstLineOk(chunks[0], moveTo.Some?) && (forall i :: 1 <= i < |chunks| ==> chunks[i].marked)
  }

  ghost predicate HunksOk(hunks: seq<HunkText>)
  {
    forall i :: 0 <= i < |hunks| ==> HunkOk(hunks[i])
  }
}
