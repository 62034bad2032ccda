/** Which hunks the parser can return: exactly those that can be written. */
module PatchImage {
  import opened Collections
  import opened Text
  import opened PatchLocate
  import opened PatchParse
  import opened PatchText
  import opened PatchRoundTrip
  import opened PatchCanon

  // ----- lines -----

  lemma TailOk(lines: seq<string>, n: nat)
    requires LinesOk(lines) && n <= |lines|
    ensures LinesOk(lines[n..])
  {
    hide OneLine;
  }

  lemma InnerOk(lines: seq<string>)
    requires LinesOk(lines) && |lines| >= 2
    ensures LinesOk(lines[1..|lines| - 1])
  {
    hide OneLine;
  }

  lemma SliceOk(line: string, from: nat, to: nat)
    requires OneLine(line) && from <= to <= |line|
    ensures OneLine(line[from..to])
  {
  }

  lemma {:induction false} WithoutCrsOk(lines: seq<string>)
    requires LinesOk(lines)
    ensures LinesOk(WithoutCrs(lines))
  {
    if |lines| > 1 {
      SliceOk(lines[0], 0, |WithoutCr(lines[0])|);
      WithoutCrsOk(lines[1..]);
    }
  }

  /** What is left of a trimmed header line behind its marker. */
  lemma HeaderPath(line: string, marker: string)
    requires OneLine(line) && StartsWith(Trim(line), marker) && marker != "" && marker[|marker| - 1] == ' '
    ensures PathOk(Trim(line)[|marker|..])
  {
    hide Trim;
    var from, to := TrimIsSlice(line);
    SliceOk(line, from, to);
    var header := Trim(line);
    assert header[|marker| - 1] == ' ';
    SliceOk(header, |marker|, |header|);
  }

  // ----- chunks -----

  /** What has been taken of a chunk, `n` lines of it. */
  ghost predicate PartPrintable(chunk: UpdateChunk, n: nat)
  {
    && (chunk.changeContext.Some? ==> OneLine(chunk.changeContext.value))
    && LinesOk(chunk.oldLines) && LinesOk(chunk.newLines)
    && (n > 0 ==> chunk.oldLines + chunk.newLines != [])
  }

  lemma OldLine(chunk: UpdateChunk, n: nat, line: string)
    requires PartPrintable(chunk, n) && OneLine(line)
    ensures PartPrintable(chunk.(oldLines := chunk.oldLines + [line]), n + 1)
  {
    hide OneLine;
    LinesOkAppend(chunk.oldLines, [line]);
  }

  lemma NewLine(chunk: UpdateChunk, n: nat, line: string)
    requires PartPrintable(chunk, n) && OneLine(line)
    ensures PartPrintable(chunk.(newLines := chunk.newLines + [line]), n + 1)
  {
    hide OneLine;
    LinesOkAppend(chunk.newLines, [line]);
  }

  lemma KeptLine(chunk: UpdateChunk, n: nat, line: string)
    requires PartPrintable(chunk, n) && OneLine(line)
    ensures PartPrintable(chunk.(oldLines := chunk.oldLines + [line], newLines := chunk.newLines + [line]), n + 1)
  {
    OldLine(chunk, n, line);
    NewLine(chunk.(oldLines := chunk.oldLines + [line]), n, line);
  }

  lemma {:induction false} BodyPrintable(lines: seq<string>, n: nat, chunk: UpdateChunk, lineNumber: nat)
    requires LinesOk(lines) && PartPrintable(chunk, n) && (lines == [] ==> n > 0)
    ensures var r := ChunkBody(lines, n, chunk, lineNumber); r.Ok? ==> ChunkPrintable(r.value.0)
    decreases |lines|
  {
    hide LinesOk, PartPrintable, ChunkPrintable;
    if lines == [] {
      TakenPrintable(chunk, n);
    } else {
      var line, rest := lines[0], lines[1..];
      TailOk(lines, 1);
      FirstOk(lines);
      if n > 0 {
        TakenPrintable(chunk, n);
      }
      if line == "" {
        KeptLine(chunk, n, "");
        var kept := chunk.(oldLines := chunk.oldLines + [""], newLines := chunk.newLines + [""]);
        BodyPrintable(rest, n + 1, kept, lineNumber);
      } else {
        SliceOk(line, 1, |line|);
        var text := line[1..];
        KeptLine(chunk, n, text);
        NewLine(chunk, n, text);
        OldLine(chunk, n, text);
        var kept := chunk.(oldLines := chunk.oldLines + [text], newLines := chunk.newLines + [text]);
        BodyPrintable(rest, n + 1, kept, lineNumber);
        BodyPrintable(rest, n + 1, chunk.(newLines := chunk.newLines + [text]), lineNumber);
        BodyPrintable(rest, n + 1, chunk.(oldLines := chunk.oldLines + [text]), lineNumber);
      }
    }
  }

  lemma FirstOk(lines: seq<string>)
    requires LinesOk(lines) && lines != []
    ensures OneLine(lines[0])
  {
  }

  lemma TakenPrintable(chunk: UpdateChunk, n: nat)
    requires PartPrintable(chunk, n) && n > 0
    ensures ChunkPrintable(chunk) && ChunkPrintable(chunk.(isEndOfFile := true))
  {
  }

  lemma ChunkIsPrintable(lines: seq<string>, lineNumber: nat, allowMissingContext: bool)
    requires LinesOk(lines)
    ensures var r := Chunk(lines, lineNumber, allowMissingContext); r.Ok? ==> ChunkPrintable(r.value.0)
  {
    hide ChunkBody, ChunkPrintable;
    if lines != [] {
      FirstOk(lines);
      var plain := lines[0] == NO_CONTEXT;
      var named := !plain && StartsWith(lines[0], CONTEXT);
      var startIndex := if plain || named then 1 else 0;
      if startIndex < |lines| {
        var context := if named then Some(lines[0][|CONTEXT|..]) else None;
        if named {
          SliceOk(lines[0], |CONTEXT|, |lines[0]|);
        }
        TailOk(lines, startIndex);
        BodyPrintable(lines[startIndex..], 0, UpdateChunk(context, [], [], false), lineNumber);
      }
    }
  }

  ghost predicate AllPrintable(chunks: seq<UpdateChunk>)
  {
    forall i :: 0 <= i < |chunks| ==> ChunkPrintable(chunks[i])
  }

  lemma {:induction false} ChunksArePrintable(lines: seq<string>, lineNumber: nat, have: seq<UpdateChunk>)
    requires LinesOk(lines) && AllPrintable(have)
    ensures var r := Chunks(lines, lineNumber, have); r.Ok? ==> AllPrintable(r.value.0)
    decreases |lines|
  {
    hide LinesOk, ChunkPrintable, Chunk, Trim, StartsWith;
    if lines != [] {
      TailOk(lines, 1);
      if Trim(lines[0]) == "" {
        ChunksArePrintable(lines[1..], lineNumber + 1, have);
      } else {
        ChunkIsPrintable(lines, lineNumber, have == []);
        var one := Chunk(lines, lineNumber, have == []);
        if one.Ok? {
          TailOk(lines, one.value.1);
          ChunksArePrintable(lines[one.value.1..], lineNumber + one.value.1, have + [one.value.0]);
        }
      }
    }
  }

  // ----- hunks -----

  lemma {:induction false} AddedTextEnds(lines: seq<string>)
    ensures var contents := AddedLines(lines).0; contents == "" || contents[|contents| - 1] == '\n'
  {
    hide StartsWith;
    if lines != [] && StartsWith(lines[0], "+") {
      AddedTextEnds(lines[1..]);
      AddedLinesStep(lines);
    }
  }

  lemma UpdateIsPrintable(lines: seq<string>, lineNumber: nat, path: string)
    requires LinesOk(lines) && lines != [] && PathOk(path)
    ensures var r := UpdateHunk(lines, lineNumber, path); r.Ok? ==> Printable(r.value.0)
  {
    hide Trim, Chunks, PathOk, ChunkPrintable, StartsWith;
    var candidate := if |lines| > 1 then Trim(lines[1]) else "";
    if StartsWith(candidate, MOVE_TO) {
      NothingStarts();
      HeaderPath(lines[1], MOVE_TO);
    }
    var consumed := if StartsWith(candidate, MOVE_TO) then 2 else 1;
    if consumed <= |lines| {
      TailOk(lines, consumed);
      ChunksArePrintable(lines[consumed..], lineNumber + consumed, []);
    }
  }

  lemma NothingStarts()
    ensures !StartsWith("", MOVE_TO)
  {
  }

  /** Every hunk the parser takes from lines can be written. */
  lemma HunkIsPrintable(lines: seq<string>, lineNumber: nat)
    requires LinesOk(lines) && lines != []
    ensures var r := OneHunk(lines, lineNumber); r.Ok? ==> Printable(r.value.0)
  {
    hide Trim, UpdateHunk, AddedLines, PathOk;
    FirstOk(lines);
    var first := Trim(lines[0]);
    if StartsWith(first, ADD_FILE) {
      HeaderPath(lines[0], ADD_FILE);
      AddedTextEnds(lines[1..]);
    } else if StartsWith(first, DELETE_FILE) {
      HeaderPath(lines[0], DELETE_FILE);
    } else if StartsWith(first, UPDATE_FILE) {
      HeaderPath(lines[0], UPDATE_FILE);
      UpdateIsPrintable(lines, lineNumber, first[|UPDATE_FILE|..]);
    }
  }

  ghost predicate HunksPrintable(hunks: seq<Hunk>)
  {
    forall i :: 0 <= i < |hunks| ==> Printable(hunks[i])
  }

  lemma HunksPrintableCons(hunk: Hunk, hunks: seq<Hunk>)
    requires Printable(hunk) && HunksPrintable(hunks)
    ensures HunksPrintable([hunk] + hunks)
  {
    forall i | 0 <= i < |[hunk] + hunks|
      ensures Printable(([hunk] + hunks)[i])
    {
      assert ([hunk] + hunks)[i] == if i == 0 then hunk else hunks[i - 1];
    }
  }

  lemma NoHunks()
    ensures HunksPrintable([])
  {
  }

  lemma {:induction false} HunksArePrintable(lines: seq<string>, lineNumber: nat)
    requires LinesOk(lines)
    ensures var r := Hunks(lines, lineNumber); r.Ok? ==> HunksPrintable(r.value)
    decreases |lines|
  {
    hide LinesOk, Printable, OneHunk, HunksPrintable;
    if lines == [] {
      NoHunks();
    } else {
      HunkIsPrintable(lines, lineNumber);
      var one := OneHunk(lines, lineNumber);
      if one.Ok? {
        var (hunk, n) := one.value;
        TailOk(lines, n);
        HunksArePrintable(lines[n..], lineNumber + n);
        var rest := Hunks(lines[n..], lineNumber + n);
        if rest.Ok? {
          HunksPrintableCons(hunk, rest.value);
        }
      }
    }
  }

  lemma BrokenLinesOk(text: string)
    ensures LinesOk(PatchLines(text))
  {
    SplitGivesLines(text);
    WithoutCrsOk(SplitLines(text));
  }

  lemma BoundariesOk(lines: seq<string>)
    requires LinesOk(lines) && lines != []
    ensures var r := Boundaries(lines); r.Ok? ==> LinesOk(r.value)
  {
    hide LinesOk, BoundaryError, IsHeredoc;
    if |lines| >= 2 {
      InnerOk(lines);
    }
  }

  lemma PatchIsPrintable(text: string)
    ensures Patch(text).Ok? ==> HunksPrintable(Patch(text).value)
  {
    hide HunksPrintable, Hunks, Trim, PatchLines, Boundaries, LinesOk;
    var lines := PatchLines(Trim(text));
    BrokenLinesOk(Trim(text));
    BoundariesOk(lines);
    var bounded := Boundaries(lines);
    if bounded.Ok? {
      InnerOk(bounded.value);
      HunksArePrintable(bounded.value[1..|bounded.value| - 1], 2);
    }
  }

  // ----- exactly -----

  /** Hunks are what the parser returns for some text if and only if all of them are
      printable. */
  lemma ParsedExactly(hunks: seq<Hunk>)
    ensures (exists text :: Patch(text) == Ok(hunks)) <==> HunksPrintable(hunks)
  {
    hide Patch, Printable;
    if HunksPrintable(hunks) {
      CanonsMean(hunks);
      ParseOfPrint(Canons(hunks), false);
    }
    hide HunksPrintable;
    forall text | Patch(text) == Ok(hunks)
      ensures HunksPrintable(hunks)
    {
      PatchIsPrintable(text);
    }
  }

  lemma OnePrintable(h: Hunk)
    ensures HunksPrintable([h]) <==> Printable(h)
  {
    hide Printable;
    if HunksPrintable([h]) {
      assert Printable([h][0]);
    }
  }

  /** So a hunk is what the parser returns for some text if and only if it is printable. */
  lemma PrintableExactly(h: Hunk)
    ensures Printable(h) <==> exists text :: Patch(text) == Ok([h])
  {
    hide Patch, Printable, HunksPrintable;
    ParsedExactly([h]);
    OnePrintable(h);
  }

  /** And it is then the meaning of a written form. */
  lemma FormsAreEnough(h: Hunk)
    ensures Printable(h) <==> exists t: HunkText :: HunkOk(t) && Meaning(t) == h
  {
    hide Patch, Printable, HunkOk, Meaning, PrintPatch, HunksPrintable;
    if Printable(h) {
      CanonMeans(h);
    }
    forall t: HunkText | HunkOk(t) && Meaning(t) == h
      ensures Printable(h)
    {
      OneMeaning(t);
      ParseOfPrint([t], false);
      ParsedExactly([h]);
      OnePrintable(h);
    }
  }

  lemma OneMeaning(t: HunkText)
    ensures Meanings([t]) == [Meaning(t)]
  {
    hide Meaning;
    assert [t][1..] == [];
  }

  /** A line may end in a carriage return: the one in front of a newline is the line break's,
      any before it the line's own. */
  lemma CarriageReturnExample()
    ensures exists text :: Patch(text) == Ok([AddFile("a", "x\r\n")])
  {
    PrintableExactly(AddFile("a", "x\r\n"));
  }
}
