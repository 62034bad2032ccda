/** The errors of the patch parser (src/agents/apply-patch.ts): when it complains about
    the markers, and that every other error names the line it is about. */
module PatchErrors {
  import opened Collections
  import opened Text
  import opened PatchLocate
  import opened PatchParse

  // ----- the markers -----

  /** The lines that must be a patch: what stands in the here-document, if it is one. */
  function Unwrapped(lines: seq<string>): (r: seq<string>)
    requires lines != []
    ensures r != []
  {
    if |lines| >= 4 && IsHeredoc(lines) then lines[1..|lines| - 1] else lines
  }

  lemma OpenersDoNotBegin(line: string)
    requires line == "<<EOF" || line == "<<'EOF'" || line == "<<\"EOF\""
    ensures Trim(line) != BEGIN_PATCH
  {
    assert |BEGIN_PATCH| > |line| >= |Trim(line)|;
  }

  /** The markers are looked at first, then the hunks between them. */
  lemma MarkersFirst(input: string)
    requires Trim(input) != ""
    ensures var lines := Unwrapped(PatchLines(Trim(input)));
      && (Trim(lines[0]) == BEGIN_PATCH && Trim(lines[|lines| - 1]) == END_PATCH ==> |lines| >= 2)
      && Patch(input) == if Trim(lines[0]) != BEGIN_PATCH then Err(BadFirstLine)
                         else if Trim(lines[|lines| - 1]) != END_PATCH then Err(BadLastLine)
                         else Hunks(lines[1..|lines| - 1], 2)
  {
    hide Trim, PatchLines, Hunks;
    MarkersDiffer();
    var lines := PatchLines(Trim(input));
    if IsHeredoc(lines) {
      OpenersDoNotBegin(lines[0]);
    }
  }

  /** The parser complains exactly about a blank text, a patch that does not begin with
      the begin marker, and one that does but does not end with the end marker. */
  lemma MarkerErrorsExactly(input: string)
    ensures Patch(input) == Err(EmptyInput) <==> Trim(input) == ""
    ensures var lines := Unwrapped(PatchLines(Trim(input)));
      && (Patch(input) == Err(BadFirstLine) <==> Trim(input) != "" && Trim(lines[0]) != BEGIN_PATCH)
      && (Patch(input) == Err(BadLastLine) <==>
            Trim(input) != "" && Trim(lines[0]) == BEGIN_PATCH && Trim(lines[|lines| - 1]) != END_PATCH)
  {
    hide Trim, PatchLines, Hunks;
    if Trim(input) != "" {
      MarkersFirst(input);
      var lines := Unwrapped(PatchLines(Trim(input)));
      if Trim(lines[0]) == BEGIN_PATCH && Trim(lines[|lines| - 1]) == END_PATCH {
        HunkErrorsNameTheirLine(lines[..|lines| - 1], 2);
        assert lines[..|lines| - 1][1..] == lines[1..|lines| - 1];
      }
    }
  }

  // ----- the other errors -----

  predicate IsMarker(line: string)
  {
    line == NO_CONTEXT || StartsWith(line, CONTEXT)
  }

  predicate IsHeader(line: string)
  {
    StartsWith(line, ADD_FILE) || StartsWith(line, DELETE_FILE) || StartsWith(line, UPDATE_FILE)
  }

  /** A line that can neither stand in a chunk nor end one that has no line yet. */
  predicate IsStray(line: string)
  {
    line != "" && line != END_OF_FILE && line[0] != ' ' && line[0] != '+' && line[0] != '-'
  }

  /** The line with the error's number is the one it is about. Lines are counted from 1,
      `lines` are those in front of the end marker. A stray line behind no context marker
      is the one before the line the error names. */
  predicate NamesItsLine(lines: seq<string>, e: ParseError)
  {
    match e
    case EmptyInput => false
    case BadFirstLine => false
    case BadLastLine => false
    case BadHeader(k) => 1 <= k <= |lines| && !IsHeader(Trim(lines[k - 1]))
    case EmptyUpdate(k) => 1 <= k <= |lines| && StartsWith(Trim(lines[k - 1]), UPDATE_FILE)
    case MissingContext(k) =>
      1 <= k <= |lines| && !IsMarker(lines[k - 1]) && Trim(lines[k - 1]) != "" && !StartsWith(lines[k - 1], "***")
    case NoLines(k) =>
      2 <= k <= |lines| + 1 && IsMarker(lines[k - 2]) && (k <= |lines| ==> lines[k - 1] == END_OF_FILE)
    case UnexpectedLine(k) =>
      && 2 <= k <= |lines| + 1
      && if IsMarker(lines[k - 2]) then k <= |lines| && IsStray(lines[k - 1]) else IsStray(lines[k - 2])
  }

  /** Only the first line of a chunk's body can be an error. */
  lemma {:induction false} BodyError(lines: seq<string>, n: nat, chunk: UpdateChunk, lineNumber: nat)
    ensures ChunkBody(lines, n, chunk, lineNumber).Err? ==>
      && n == 0 && lines != []
      && ChunkBody(lines, n, chunk, lineNumber).error ==
         (if lines[0] == END_OF_FILE then NoLines(lineNumber + 1) else UnexpectedLine(lineNumber + 1))
      && (lines[0] == END_OF_FILE || IsStray(lines[0]))
    decreases |lines|
  {
    if lines != [] && lines[0] != END_OF_FILE && (lines[0] == "" || lines[0][0] in {' ', '+', '-'}) {
      var line := lines[0];
      var text := if line == "" then "" else line[1..];
      var oldLines := if line == "" || line[0] != '+' then chunk.oldLines + [text] else chunk.oldLines;
      var newLines := if line == "" || line[0] != '-' then chunk.newLines + [text] else chunk.newLines;
      BodyError(lines[1..], n + 1, chunk.(oldLines := oldLines, newLines := newLines), lineNumber);
    }
  }

  lemma ChunkErrorNamesItsLine(lines: seq<string>, k: nat, allowMissingContext: bool)
    requires 1 <= k <= |lines|
    requires Trim(lines[k - 1]) != "" && !StartsWith(lines[k - 1], "***")
    ensures var r := Chunk(lines[k - 1..], k, allowMissingContext); r.Err? ==> NamesItsLine(lines, r.error)
  {
    hide ChunkBody, Trim;
    var rest := lines[k - 1..];
    assert StartsWith(END_OF_FILE, "***");
    var startIndex := if IsMarker(rest[0]) then 1 else 0;
    var context := if rest[0] != NO_CONTEXT && StartsWith(rest[0], CONTEXT) then Some(rest[0][|CONTEXT|..]) else None;
    if startIndex < |rest| {
      BodyError(rest[startIndex..], 0, UpdateChunk(context, [], [], false), k);
    }
  }

  lemma {:induction false} ChunksErrorNamesItsLine(lines: seq<string>, k: nat, have: seq<UpdateChunk>)
    requires 1 <= k <= |lines| + 1
    ensures var r := Chunks(lines[k - 1..], k, have); r.Err? ==> NamesItsLine(lines, r.error)
    decreases |lines| + 1 - k
  {
    hide Chunk, Trim, StartsWith, NamesItsLine;
    var rest := lines[k - 1..];
    if rest != [] {
      if Trim(rest[0]) == "" {
        assert rest[1..] == lines[k..];
        ChunksErrorNamesItsLine(lines, k + 1, have);
      } else if !StartsWith(rest[0], "***") {
        ChunkErrorNamesItsLine(lines, k, have == []);
        if Chunk(rest, k, have == []).Ok? {
          var (chunk, n) := Chunk(rest, k, have == []).value;
          assert rest[n..] == lines[k + n - 1..];
          ChunksErrorNamesItsLine(lines, k + n, have + [chunk]);
        }
      }
    }
  }

  lemma OneHunkErrorNamesItsLine(lines: seq<string>, k: nat)
    requires 1 <= k <= |lines|
    ensures var r := OneHunk(lines[k - 1..], k); r.Err? ==> NamesItsLine(lines, r.error)
  {
    hide Chunks, Trim, StartsWith, AddedLines;
    var rest := lines[k - 1..];
    var moves := |rest| > 1 && StartsWith(Trim(rest[1]), MOVE_TO);
    var consumed := if moves then 2 else 1;
    assert !StartsWith("", MOVE_TO) by { NothingStartsEmpty(); }
    assert rest[consumed..] == lines[k + consumed - 1..];
    ChunksErrorNamesItsLine(lines, k + consumed, []);
  }

  lemma NothingStartsEmpty()
    ensures !StartsWith("", MOVE_TO)
  {
  }

  /** Whatever is wrong with the hunks behind line `k - 1`, the error names the line. */
  lemma {:induction false} HunkErrorsNameTheirLine(lines: seq<string>, k: nat)
    requires 1 <= k <= |lines| + 1
    ensures var r := Hunks(lines[k - 1..], k); r.Err? ==> NamesItsLine(lines, r.error)
    decreases |lines| + 1 - k
  {
    hide OneHunk, NamesItsLine;
    var rest := lines[k - 1..];
    if rest != [] {
      OneHunkErrorNamesItsLine(lines, k);
      if OneHunk(rest, k).Ok? {
        var n := OneHunk(rest, k).value.1;
        assert rest[n..] == lines[k + n - 1..];
        HunkErrorsNameTheirLine(lines, k + n);
      }
    }
  }

  /** Every other error of the parser names its line, counted from the begin marker. */
  lemma ErrorsNameTheirLine(input: string)
    ensures Patch(input).Err? && Patch(input).error !in {EmptyInput, BadFirstLine, BadLastLine} ==>
      var lines := Unwrapped(PatchLines(Trim(input)));
      NamesItsLine(lines[..|lines| - 1], Patch(input).error)
  {
    hide Trim, PatchLines, Hunks, NamesItsLine;
    if Trim(input) != "" {
      MarkersFirst(input);
      var lines := Unwrapped(PatchLines(Trim(input)));
      if |lines| >= 2 {
        HunkErrorsNameTheirLine(lines[..|lines| - 1], 2);
        assert lines[..|lines| - 1][1..] == lines[1..|lines| - 1];
      }
    }
  }

  /** A first chunk without its marker may begin with a stray line; the error then names
      the line behind it. */
  lemma StrayLineIsNamedLate(lines: seq<string>, k: nat)
    requires lines != [] && IsStray(lines[0]) && !IsMarker(lines[0])
    ensures Chunk(lines, k, true) == Err(UnexpectedLine(k + 1))
  {
    assert lines[0..] == lines;
  }
}
