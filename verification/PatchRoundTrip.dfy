/** Printing hunks as a patch and parsing the patch again. */
module PatchRoundTrip {
  import opened Collections
  import opened Text
  import opened PatchLocate
  import opened PatchParse
  import opened PatchText

  // ----- parsing chunks again -----

  /** A line that ends the body of a chunk. */
  predicate EndsBody(line: string)
  {
    line != "" && (line[0] == '@' || line[0] == '*') && line != END_OF_FILE
  }

  lemma LineHead(l: PatchLine)
    ensures var line := PrintLine(l);
      && line != "" && line != END_OF_FILE && line[1..] == l.text
      && line[0] == (if l.Keep? then ' ' else if l.Add? then '+' else '-')
  {
    assert END_OF_FILE[0] == '*';
  }

  lemma BodyStep(lines: seq<string>, l: PatchLine, n: nat, chunk: UpdateChunk, lineNumber: nat)
    requires lines != [] && lines[0] == PrintLine(l)
    ensures ChunkBody(lines, n, chunk, lineNumber) ==
            ChunkBody(lines[1..], n + 1, chunk.(oldLines := chunk.oldLines + OldPart(l),
                                                newLines := chunk.newLines + NewPart(l)), lineNumber)
  {
    LineHead(l);
    assert chunk.oldLines + [] == chunk.oldLines && chunk.newLines + [] == chunk.newLines;
  }

  lemma {:induction false} BodyParses(body: seq<PatchLine>, rest: seq<string>, n: nat, chunk: UpdateChunk,
                                      lineNumber: nat)
    ensures ChunkBody(PrintBody(body) + rest, n, chunk, lineNumber) ==
            ChunkBody(rest, n + |body|, chunk.(oldLines := chunk.oldLines + OldOf(body),
                                                newLines := chunk.newLines + NewOf(body)), lineNumber)
    decreases |body|
  {
    hide ChunkBody, OldPart, NewPart;
    if body == [] {
      assert PrintBody(body) + rest == rest;
      assert chunk.oldLines + [] == chunk.oldLines && chunk.newLines + [] == chunk.newLines;
    } else {
      var l, lines := body[0], PrintBody(body) + rest;
      assert lines[1..] == PrintBody(body[1..]) + rest;
      assert lines[0] == PrintLine(l);
      var next := chunk.(oldLines := chunk.oldLines + OldPart(l), newLines := chunk.newLines + NewPart(l));
      BodyStep(lines, l, n, chunk, lineNumber);
      BodyParses(body[1..], rest, n + 1, next, lineNumber);
      Regroup(chunk.oldLines, OldPart(l), OldOf(body[1..]));
      Regroup(chunk.newLines, NewPart(l), NewOf(body[1..]));
    }
  }

  lemma BodyEnds(rest: seq<string>, n: nat, chunk: UpdateChunk, lineNumber: nat)
    requires n > 0 && (rest != [] ==> EndsBody(rest[0]))
    ensures ChunkBody(rest, n, chunk, lineNumber) == Ok((chunk, n))
    ensures ChunkBody([END_OF_FILE] + rest, n, chunk, lineNumber) == Ok((chunk.(isEndOfFile := true), n + 1))
  {
  }

  lemma ContextParses(context: Option<string>)
    ensures var line := PrintContext(context);
      && (line == NO_CONTEXT <==> context.None?)
      && (context.Some? ==> StartsWith(line, CONTEXT) && line[|CONTEXT|..] == context.value)
      && line[0] == '@' && Trim(line) != "" && !StartsWith(line, "***") && EndsBody(line)
  {
    var line := PrintContext(context);
    assert END_OF_FILE[0] == '*' && "***"[0] == '*';
    NonBlank(line);
    if context.Some? {
      assert |line| >= 3 && |NO_CONTEXT| == 2;
    }
  }

  /** A line that does not begin with white space is not blank. */
  lemma NonBlank(line: string)
    requires line != "" && !IsSpace(line[0])
    ensures Trim(line) == TrimEnd(line) != ""
  {
    TrimEndIsPrefix(line);
    assert TrimEnd(line)[0] == line[0];
  }

  /** A printed line of a chunk's body is no context marker. */
  lemma LineIsNoMarker(l: PatchLine)
    ensures var line := PrintLine(l);
      line != NO_CONTEXT && !StartsWith(line, CONTEXT) && !StartsWith(line, "***")
  {
    LineHead(l);
    assert NO_CONTEXT[0] == '@' && CONTEXT[0] == '@' && "***"[0] == '*';
  }

  lemma ChunkParses(c: ChunkText, rest: seq<string>, lineNumber: nat, allowMissingContext: bool)
    requires c.body != [] && (rest != [] ==> EndsBody(rest[0]))
    requires c.marked || (allowMissingContext && c.context.None?)
    ensures Chunk(PrintChunk(c) + rest, lineNumber, allowMissingContext) == Ok((ChunkMeaning(c), |PrintChunk(c)|))
  {
    hide ChunkBody, PrintContext, PrintLine, PrintBody, StartsWith, EndsBody;
    var lines, k := PrintChunk(c) + rest, if c.marked then 1 else 0;
    BodyLines(c, rest);
    var empty := UpdateChunk(c.context, [], [], false);
    ContextParses(c.context);
    LineIsNoMarker(c.body[0]);
    BodyRead(c, rest, lineNumber);
    assert ChunkBody(lines[k..], 0, empty, lineNumber) == Ok((ChunkMeaning(c), |PrintChunk(c)| - k));
  }

  lemma BodyLines(c: ChunkText, rest: seq<string>)
    requires c.body != []
    ensures var lines := PrintChunk(c) + rest;
      && lines[0] == (if c.marked then PrintContext(c.context) else PrintLine(c.body[0]))
      && lines[if c.marked then 1 else 0..] == PrintBody(c.body) + ((if c.endOfFile then [END_OF_FILE] else []) + rest)
  {
    hide PrintContext, PrintLine;
    var end := if c.endOfFile then [END_OF_FILE] else [];
    Regroup(PrintMarker(c) + PrintBody(c.body), end, rest);
    Regroup(PrintMarker(c), PrintBody(c.body), end + rest);
    assert PrintChunk(c) + rest == PrintMarker(c) + (PrintBody(c.body) + (end + rest));
  }

  lemma BodyRead(c: ChunkText, rest: seq<string>, lineNumber: nat)
    requires c.body != [] && (rest != [] ==> EndsBody(rest[0]))
    ensures ChunkBody(PrintBody(c.body) + ((if c.endOfFile then [END_OF_FILE] else []) + rest), 0,
                      UpdateChunk(c.context, [], [], false), lineNumber)
         == Ok((ChunkMeaning(c), |c.body| + if c.endOfFile then 1 else 0))
  {
    hide ChunkBody, PrintBody, EndsBody;
    var end := if c.endOfFile then [END_OF_FILE] else [];
    BodyParses(c.body, end + rest, 0, UpdateChunk(c.context, [], [], false), lineNumber);
    assert [] + OldOf(c.body) == OldOf(c.body) && [] + NewOf(c.body) == NewOf(c.body);
    BodyEnds(rest, |c.body|, UpdateChunk(c.context, OldOf(c.body), NewOf(c.body), false), lineNumber);
    assert !c.endOfFile ==> end + rest == rest;
  }

  lemma ChunksStep(lines: seq<string>, n: nat, chunk: UpdateChunk, lineNumber: nat, have: seq<UpdateChunk>)
    requires lines != [] && Trim(lines[0]) != "" && !StartsWith(lines[0], "***") && n <= |lines|
    requires Chunk(lines, lineNumber, have == []) == Ok((chunk, n))
    ensures var more := Chunks(lines[n..], lineNumber + n, have + [chunk]);
      Chunks(lines, lineNumber, have) == if more.Err? then more else Ok((more.value.0, n + more.value.1))
  {
    hide Chunk, Trim, StartsWith;
  }

  lemma ChunksStop(rest: seq<string>, lineNumber: nat, have: seq<UpdateChunk>)
    requires rest != [] ==> StartsWith(rest[0], "***") && Trim(rest[0]) != ""
    ensures Chunks(rest, lineNumber, have) == Ok((have, 0))
  {
    hide Chunk, Trim;
  }

  /** Chunks that can be read behind those parsed already. */
  ghost predicate ChunksReadable(chunks: seq<ChunkText>, first: bool)
  {
    && (forall i :: 0 <= i < |chunks| ==> ChunkOk(chunks[i]))
    && (chunks != [] && first ==> FirstLineOk(chunks[0], true))
    && (forall i :: (if first then 1 else 0) <= i < |chunks| ==> chunks[i].marked)
  }

  lemma FirstReadable(chunks: seq<ChunkText>, first: bool)
    requires chunks != [] && ChunksReadable(chunks, first)
    ensures ChunkOk(chunks[0]) && chunks[0].body != [] && FirstLineOk(chunks[0], true)
    ensures chunks[0].marked || (first && chunks[0].context.None?)
    ensures ChunksReadable(chunks[1..], false)
    ensures forall i :: 1 <= i < |chunks| ==> ChunkOk(chunks[i]) && chunks[i].marked
  {
    hide Trim, OneLine, PrintLine;
    assert ChunkOk(chunks[0]);
  }

  lemma ChunkHead(c: ChunkText)
    requires ChunkOk(c) && FirstLineOk(c, true)
    ensures var line := PrintChunk(c)[0];
      line == (if c.marked then PrintContext(c.context) else PrintLine(c.body[0])) && Trim(line) != ""
        && !StartsWith(line, "***")
  {
    hide Trim;
    BodyLines(c, []);
    ContextParses(c.context);
    LineIsNoMarker(c.body[0]);
  }

  lemma {:induction false} ChunksParse(chunks: seq<ChunkText>, rest: seq<string>, lineNumber: nat,
                                       have: seq<UpdateChunk>)
    requires ChunksReadable(chunks, have == [])
    requires rest != [] ==> EndsBody(rest[0]) && StartsWith(rest[0], "***") && Trim(rest[0]) != ""
    ensures Chunks(PrintChunks(chunks) + rest, lineNumber, have)
         == Ok((have + ChunkMeanings(chunks), |PrintChunks(chunks)|))
    decreases |chunks|
  {
    hide Chunk, Chunks, Trim, PrintChunk, ChunkMeaning, StartsWith, EndsBody, ChunksReadable, ChunkOk,
         FirstLineOk, PrintChunks, ChunkMeanings;
    if chunks == [] {
      NoChunks();
      NothingAdded(rest);
      NothingAdded(have);
      ChunksStop(rest, lineNumber, have);
    } else {
      var c, behind := chunks[0], PrintChunks(chunks[1..]) + rest;
      var lines := PrintChunks(chunks) + rest;
      Regroup(PrintChunk(c), PrintChunks(chunks[1..]), rest);
      var n := |PrintChunk(c)|;
      FirstChunk(chunks);
      FirstReadable(chunks, have == []);
      TakeApart(PrintChunk(c), behind);
      ChunkHead(c);
      assert lines[0] == PrintChunk(c)[0];
      BehindEndsBody(chunks, rest);
      ChunkParses(c, behind, lineNumber, have == []);
      ChunksStep(lines, n, ChunkMeaning(c), lineNumber, have);
      ChunksParse(chunks[1..], rest, lineNumber + n, have + [ChunkMeaning(c)]);
      Regroup(have, [ChunkMeaning(c)], ChunkMeanings(chunks[1..]));
    }
  }

  lemma NoChunks()
    ensures PrintChunks([]) == [] && ChunkMeanings([]) == []
  {
  }

  lemma FirstChunk(chunks: seq<ChunkText>)
    requires chunks != []
    ensures PrintChunks(chunks) == PrintChunk(chunks[0]) + PrintChunks(chunks[1..])
    ensures ChunkMeanings(chunks) == [ChunkMeaning(chunks[0])] + ChunkMeanings(chunks[1..])
  {
    hide PrintChunk, ChunkMeaning;
  }

  lemma BehindEndsBody(chunks: seq<ChunkText>, rest: seq<string>)
    requires chunks != [] && (rest != [] ==> EndsBody(rest[0]))
    requires forall i :: 1 <= i < |chunks| ==> ChunkOk(chunks[i]) && chunks[i].marked
    ensures var behind := PrintChunks(chunks[1..]) + rest; behind != [] ==> EndsBody(behind[0])
  {
    hide PrintContext, EndsBody;
    if |chunks| > 1 {
      var next := chunks[1..][0];
      assert next == chunks[1];
      ContextParses(next.context);
      BodyLines(next, []);
      assert (PrintChunks(chunks[1..]) + rest)[0] == PrintContext(next.context);
    }
  }

  // ----- parsing hunks again -----

  /** What follows a hunk: nothing, or the header of the next one. */
  predicate FollowsHunk(rest: seq<string>)
  {
    rest != [] ==>
      && EndsBody(rest[0]) && StartsWith(rest[0], "***") && Trim(rest[0]) != "" && !StartsWith(rest[0], "+")
  }

  lemma HeaderParses(marker: string, path: string)
    requires marker in {ADD_FILE, DELETE_FILE, UPDATE_FILE, MOVE_TO} && PathOk(path)
    ensures var line := marker + path;
      && Trim(line) == line && StartsWith(line, marker) && line[|marker|..] == path
      && EndsBody(line) && StartsWith(line, "***") && !StartsWith(line, "+")
  {
    var line := marker + path;
    assert marker[0] == '*' && marker[1] == '*' && marker[2] == '*' && line[0] == '*' && line[1] == '*'
           && line[2] == '*';
    assert line[|line| - 1] == path[|path| - 1];
    TrimFixed(line);
    assert "***" == ['*', '*', '*'] && line[..3] == "***";
    assert END_OF_FILE[4] == 'E' && line[4] != 'E';
  }

  lemma MarkersApart(path: string)
    ensures !StartsWith(DELETE_FILE + path, ADD_FILE)
    ensures !StartsWith(UPDATE_FILE + path, ADD_FILE) && !StartsWith(UPDATE_FILE + path, DELETE_FILE)
  {
    assert ADD_FILE[4] == 'A' && DELETE_FILE[4] == 'D' && UPDATE_FILE[4] == 'U';
    assert (DELETE_FILE + path)[4] == 'D' && (UPDATE_FILE + path)[4] == 'U';
  }

  lemma {:induction false} AddedParses(added: seq<string>, rest: seq<string>)
    requires rest != [] ==> !StartsWith(rest[0], "+")
    ensures AddedLines(PrintAdded(added) + rest).0 == AddedText(added)
    ensures AddedLines(PrintAdded(added) + rest).1 == |added|
    decreases |added|
  {
    hide AddedLines, AddedText;
    if added == [] {
      NothingAdded(rest);
      NoMoreAdded(rest);
    } else {
      var lines := PrintAdded(added) + rest;
      assert lines[0] == "+" + added[0] && lines[1..] == PrintAdded(added[1..]) + rest;
      AddedParses(added[1..], rest);
      OneMoreAdded(lines, added);
    }
  }

  lemma NoMoreAdded(rest: seq<string>)
    requires rest != [] ==> !StartsWith(rest[0], "+")
    ensures AddedLines(rest).0 == AddedText([]) && AddedLines(rest).1 == 0
  {
  }

  lemma AddedLinesStep(lines: seq<string>)
    requires lines != [] && StartsWith(lines[0], "+")
    ensures AddedLines(lines).0 == lines[0][1..] + "\n" + AddedLines(lines[1..]).0
    ensures AddedLines(lines).1 == AddedLines(lines[1..]).1 + 1
  {
    hide StartsWith;
  }

  lemma PlusLine(s: string)
    ensures StartsWith("+" + s, "+") && ("+" + s)[1..] == s
  {
  }

  lemma AddedTextStep(added: seq<string>)
    requires added != []
    ensures AddedText(added) == added[0] + "\n" + AddedText(added[1..])
  {
  }

  lemma OneMoreAdded(lines: seq<string>, added: seq<string>)
    requires lines != [] && added != [] && lines[0] == "+" + added[0]
    requires AddedLines(lines[1..]).0 == AddedText(added[1..])
    ensures AddedLines(lines).0 == AddedText(added)
    ensures AddedLines(lines).1 == AddedLines(lines[1..]).1 + 1
  {
    hide AddedLines, AddedText, StartsWith;
    PlusLine(added[0]);
    AddedLinesStep(lines);
    AddedTextStep(added);
  }

  lemma Moves(lines: seq<string>, lineNumber: nat, path: string, target: string, chunks: seq<UpdateChunk>, n: nat)
    requires |lines| >= 2 && Trim(lines[1]) == MOVE_TO + target && chunks != []
    requires Chunks(lines[2..], lineNumber + 2, []) == Ok((chunks, n))
    ensures UpdateHunk(lines, lineNumber, path) == Ok((UpdateFile(path, Some(target), chunks), n + 2))
  {
    hide Chunks, Trim;
  }

  lemma StaysPut(lines: seq<string>, lineNumber: nat, path: string, chunks: seq<UpdateChunk>, n: nat)
    requires |lines| >= 2 && !StartsWith(Trim(lines[1]), MOVE_TO) && chunks != []
    requires Chunks(lines[1..], lineNumber + 1, []) == Ok((chunks, n))
    ensures UpdateHunk(lines, lineNumber, path) == Ok((UpdateFile(path, None, chunks), n + 1))
  {
    hide Chunks, Trim, StartsWith;
  }

  lemma UpdateLines(path: string, moveTo: Option<string>, chunks: seq<ChunkText>, rest: seq<string>)
    requires chunks != [] && chunks[0].body != []
    ensures var lines, k := PrintHunk(UpdateText(path, moveTo, chunks)), if moveTo.Some? then 2 else 1;
      && |lines| == k + |PrintChunks(chunks)| && |lines| >= 2
      && (lines + rest)[k..] == PrintChunks(chunks) + rest
      && (lines + rest)[1] == if moveTo.Some? then MOVE_TO + moveTo.value else PrintChunk(chunks[0])[0]
  {
    hide PrintChunk, PrintChunks, PrintHunk;
    FirstLine(chunks);
    var head, body := UpdateHead(path, moveTo), PrintChunks(chunks);
    UpdateIsHeadAndChunks(path, moveTo, chunks);
    BehindFront(head, body, rest);
    assert (head + body + rest)[1] == if moveTo.Some? then head[1] else body[0];
  }

  /** The header lines of an updated file. */
  function UpdateHead(path: string, moveTo: Option<string>): (head: seq<string>)
    ensures |head| == if moveTo.Some? then 2 else 1
    ensures moveTo.Some? ==> head[1] == MOVE_TO + moveTo.value
  {
    [UPDATE_FILE + path] + if moveTo.Some? then [MOVE_TO + moveTo.value] else []
  }

  lemma UpdateIsHeadAndChunks(path: string, moveTo: Option<string>, chunks: seq<ChunkText>)
    ensures PrintHunk(UpdateText(path, moveTo, chunks)) == UpdateHead(path, moveTo) + PrintChunks(chunks)
  {
  }

  lemma FirstLine(chunks: seq<ChunkText>)
    requires chunks != [] && chunks[0].body != []
    ensures PrintChunks(chunks) != [] && PrintChunks(chunks)[0] == PrintChunk(chunks[0])[0]
  {
    hide PrintChunk;
  }

  lemma UpdateParses(path: string, moveTo: Option<string>, chunks: seq<ChunkText>, rest: seq<string>, lineNumber: nat)
    requires HunkOk(UpdateText(path, moveTo, chunks)) && FollowsHunk(rest)
    ensures var h := UpdateText(path, moveTo, chunks);
      UpdateHunk(PrintHunk(h) + rest, lineNumber, path) == Ok((Meaning(h), |PrintHunk(h)|))
  {
    hide Chunks, Trim, PrintChunk, PrintChunks, PrintHunk, ChunkOk, EndsBody, PathOk, StartsWith, UpdateHunk,
         FirstLineOk;
    var lines := PrintHunk(UpdateText(path, moveTo, chunks)) + rest;
    var n, meant := |PrintChunks(chunks)|, ChunkMeanings(chunks);
    Readable(path, moveTo, chunks);
    UpdateLines(path, moveTo, chunks, rest);
    assert [] + meant == meant;
    if moveTo.Some? {
      ChunksParse(chunks, rest, lineNumber + 2, []);
      HeaderParses(MOVE_TO, moveTo.value);
      Moves(lines, lineNumber, path, moveTo.value, meant, n);
    } else {
      ChunksParse(chunks, rest, lineNumber + 1, []);
      NoMove(chunks[0]);
      StaysPut(lines, lineNumber, path, meant, n);
    }
  }

  lemma Readable(path: string, moveTo: Option<string>, chunks: seq<ChunkText>)
    requires HunkOk(UpdateText(path, moveTo, chunks))
    ensures ChunksReadable(chunks, true) && chunks[0].body != [] && ChunkOk(chunks[0])
            && FirstLineOk(chunks[0], moveTo.Some?)
  {
    hide Trim, OneLine, PrintLine;
    assert ChunkOk(chunks[0]);
  }

  lemma NoMove(c: ChunkText)
    requires ChunkOk(c) && FirstLineOk(c, false)
    ensures !StartsWith(Trim(PrintChunk(c)[0]), MOVE_TO)
  {
    hide PrintLine, OneLine;
    BodyLines(c, []);
    if c.marked {
      MarkerIsNoMove(c.context);
    }
  }

  lemma MarkerIsNoMove(context: Option<string>)
    ensures !StartsWith(Trim(PrintContext(context)), MOVE_TO)
  {
    var line := PrintContext(context);
    NonBlank(line);
    TrimEndIsPrefix(line);
    assert Trim(line)[0] == '@' && MOVE_TO[0] == '*';
  }

  lemma HunkParses(h: HunkText, rest: seq<string>, lineNumber: nat)
    requires HunkOk(h) && FollowsHunk(rest)
    ensures PrintHunk(h) != []
    ensures OneHunk(PrintHunk(h) + rest, lineNumber) == Ok((Meaning(h), |PrintHunk(h)|))
  {
    hide UpdateHunk, Trim, AddedLines, PrintChunks, PrintAdded, EndsBody, PathOk, ChunkOk, StartsWith, FirstLineOk,
         OneLine, AddedText, ChunkMeanings;
    var lines := PrintHunk(h) + rest;
    MarkersApart(h.path);
    match h
    case AddText(path, added) =>
      HeaderParses(ADD_FILE, path);
      AddedParses(added, rest);
      assert lines[0] == ADD_FILE + path && lines[1..] == PrintAdded(added) + rest;
    case DeleteText(path) =>
      HeaderParses(DELETE_FILE, path);
      assert lines[0] == DELETE_FILE + path;
    case UpdateText(path, moveTo, chunks) =>
      HeaderParses(UPDATE_FILE, path);
      UpdateParses(path, moveTo, chunks, rest, lineNumber);
      assert lines[0] == UPDATE_FILE + path;
  }

  lemma HunkHeads(h: HunkText, rest: seq<string>)
    requires HunkOk(h)
    ensures FollowsHunk(PrintHunk(h) + rest)
  {
    var lines := PrintHunk(h) + rest;
    match h
    case AddText(path, _) => HeaderParses(ADD_FILE, path); assert lines[0] == ADD_FILE + path;
    case DeleteText(path) => HeaderParses(DELETE_FILE, path); assert lines[0] == DELETE_FILE + path;
    case UpdateText(path, _, _) => HeaderParses(UPDATE_FILE, path); assert lines[0] == UPDATE_FILE + path;
  }

  lemma RestFollows(hunks: seq<HunkText>)
    requires HunksOk(hunks) && hunks != []
    ensures FollowsHunk(PrintHunks(hunks[1..]))
  {
    hide FollowsHunk, HunkOk, PrintHunk;
    if |hunks| > 1 {
      HunkHeads(hunks[1..][0], PrintHunks(hunks[1..][1..]));
    } else {
      NothingFollows();
    }
  }

  lemma NothingFollows()
    ensures FollowsHunk(PrintHunks([]))
  {
  }

  /** Parsing the printed lines of any well-formed hunks gives the hunks. */
  lemma {:induction false} HunksParse(hunks: seq<HunkText>, lineNumber: nat)
    requires HunksOk(hunks)
    ensures Hunks(PrintHunks(hunks), lineNumber) == Ok(Meanings(hunks))
    decreases |hunks|
  {
    hide OneHunk, HunkOk, FollowsHunk, PrintHunk, Meaning;
    if hunks != [] {
      var h, rest := hunks[0], PrintHunks(hunks[1..]);
      RestFollows(hunks);
      HunkParses(h, rest, lineNumber);
      TakeApart(PrintHunk(h), rest);
      HunksParse(hunks[1..], lineNumber + |PrintHunk(h)|);
    }
  }

  // ----- from text to lines -----

  ghost predicate LinesOk(lines: seq<string>)
  {
    forall i :: 0 <= i < |lines| ==> OneLine(lines[i])
  }

  lemma LinesOkAppend(a: seq<string>, b: seq<string>)
    requires LinesOk(a) && LinesOk(b)
    ensures LinesOk(a + b)
  {
  }

  lemma PrefixedLineOk(prefix: string, s: string)
    requires OneLine(prefix) && OneLine(s)
    ensures OneLine(prefix + s)
  {
  }

  lemma MarkersOk()
    ensures OneLine(BEGIN_PATCH) && OneLine(END_PATCH) && OneLine(ADD_FILE) && OneLine(DELETE_FILE)
    ensures OneLine(UPDATE_FILE) && OneLine(MOVE_TO) && OneLine(END_OF_FILE) && OneLine(CONTEXT) && OneLine(NO_CONTEXT)
    ensures OneLine(" ") && OneLine("+") && OneLine("-")
  {
  }

  lemma {:induction false} BodyLinesOk(body: seq<PatchLine>)
    requires forall i :: 0 <= i < |body| ==> OneLine(body[i].text)
    ensures LinesOk(PrintBody(body))
  {
    if body != [] {
      MarkersOk();
      BodyLinesOk(body[1..]);
      PrefixedLineOk(" ", body[0].text);
      PrefixedLineOk("+", body[0].text);
      PrefixedLineOk("-", body[0].text);
      LinesOkAppend([PrintLine(body[0])], PrintBody(body[1..]));
    }
  }

  lemma {:induction false} ChunkLinesOk(chunks: seq<ChunkText>)
    requires forall i :: 0 <= i < |chunks| ==> ChunkOk(chunks[i])
    ensures LinesOk(PrintChunks(chunks))
  {
    if chunks != [] {
      var c := chunks[0];
      MarkersOk();
      ChunkLinesOk(chunks[1..]);
      BodyLinesOk(c.body);
      if c.context.Some? {
        PrefixedLineOk(CONTEXT, c.context.value);
      }
      assert LinesOk(PrintMarker(c));
      LinesOkAppend(PrintMarker(c), PrintBody(c.body));
      LinesOkAppend(PrintMarker(c) + PrintBody(c.body), if c.endOfFile then [END_OF_FILE] else []);
      LinesOkAppend(PrintChunk(c), PrintChunks(chunks[1..]));
    }
  }

  lemma {:induction false} AddedLinesOk(added: seq<string>)
    requires forall i :: 0 <= i < |added| ==> OneLine(added[i])
    ensures LinesOk(PrintAdded(added))
  {
    if added != [] {
      MarkersOk();
      AddedLinesOk(added[1..]);
      PrefixedLineOk("+", added[0]);
      LinesOkAppend(["+" + added[0]], PrintAdded(added[1..]));
    }
  }

  lemma HunkLinesOk(h: HunkText)
    requires HunkOk(h)
    ensures LinesOk(PrintHunk(h))
  {
    hide OneLine;
    MarkersOk();
    PathLineOk(h.path);
    match h
    case AddText(path, added) =>
      PrefixedLineOk(ADD_FILE, path);
      AddedLinesOk(added);
      LinesOkAppend([ADD_FILE + path], PrintAdded(added));
    case DeleteText(path) => PrefixedLineOk(DELETE_FILE, path);
    case UpdateText(path, moveTo, chunks) =>
      PrefixedLineOk(UPDATE_FILE, path);
      ChunkLinesOk(chunks);
      if moveTo.Some? {
        PathLineOk(moveTo.value);
        PrefixedLineOk(MOVE_TO, moveTo.value);
      }
      var moved := if moveTo.Some? then [MOVE_TO + moveTo.value] else [];
      LinesOkAppend([UPDATE_FILE + path], moved);
      LinesOkAppend([UPDATE_FILE + path] + moved, PrintChunks(chunks));
  }

  lemma PathLineOk(p: string)
    requires PathOk(p)
    ensures OneLine(p)
  {
  }

  lemma {:induction false} HunksLinesOk(hunks: seq<HunkText>)
    requires HunksOk(hunks)
    ensures LinesOk(PrintHunks(hunks))
  {
    if hunks != [] {
      HunkLinesOk(hunks[0]);
      HunksLinesOk(hunks[1..]);
      LinesOkAppend(PrintHunk(hunks[0]), PrintHunks(hunks[1..]));
    }
  }

  /** The carriage return of the line break is taken off again, and no other. */
  lemma WrittenReadBack(line: string, crlf: bool)
    requires OneLine(line)
    ensures OneLine(Written(line, crlf)) && WithoutCr(Written(line, crlf)) == line
  {
    if line != "" && line[|line| - 1] == '\r' {
      assert line[|line| - 1..] == "\r";
    }
  }

  lemma {:induction false} WrittenLinesReadBack(lines: seq<string>, crlf: bool)
    requires LinesOk(lines)
    ensures LinesOk(WrittenLines(lines, crlf)) && WithoutCrs(WrittenLines(lines, crlf)) == lines
    ensures lines != [] ==> WrittenLines(lines, crlf)[|lines| - 1] == lines[|lines| - 1]
    ensures lines != [] && lines[0] != "" ==>
              WrittenLines(lines, crlf)[0] != "" && WrittenLines(lines, crlf)[0][0] == lines[0][0]
  {
    hide OneLine, WithoutCr;
    if |lines| > 1 {
      WrittenReadBack(lines[0], crlf);
      WrittenLinesReadBack(lines[1..], crlf);
      LinesOkAppend([Written(lines[0], crlf)], WrittenLines(lines[1..], crlf));
    }
  }

  lemma {:induction false} JoinEnds(lines: seq<string>)
    requires lines != [] && lines[0] != "" && lines[|lines| - 1] != ""
    ensures var text := Join(lines, "\n");
      text != "" && text[0] == lines[0][0]
      && text[|text| - 1] == lines[|lines| - 1][|lines[|lines| - 1]| - 1]
  {
    if |lines| > 1 {
      JoinLast(lines);
    }
  }

  lemma {:induction false} JoinLast(lines: seq<string>)
    requires lines != [] && lines[|lines| - 1] != ""
    ensures var text := Join(lines, "\n"); var last := lines[|lines| - 1];
      text != "" && text[|text| - 1] == last[|last| - 1]
  {
    if |lines| > 1 {
      JoinLast(lines[1..]);
    }
  }

  /** Written lines that begin and end in visible characters are read back. */
  lemma LinesReadBack(lines: seq<string>, crlf: bool)
    requires LinesOk(lines) && lines != [] && lines[0] != "" && lines[|lines| - 1] != ""
    requires !IsSpace(lines[0][0])
    requires !IsSpace(lines[|lines| - 1][|lines[|lines| - 1]| - 1])
    ensures var text := TextOf(lines, crlf); Trim(text) == text != "" && PatchLines(text) == lines
  {
    hide Trim, Join, SplitLines, WrittenLines;
    WrittenLinesReadBack(lines, crlf);
    var written := WrittenLines(lines, crlf);
    JoinEnds(written);
    TrimFixed(Join(written, "\n"));
    SplitOfJoin(written);
  }

  // ----- the round trip -----

  /** Printing well-formed hunks as a patch, with or without carriage returns, and parsing the
      patch gives them back. */
  lemma ParseOfPrint(hunks: seq<HunkText>, crlf: bool)
    requires HunksOk(hunks)
    ensures Patch(PrintPatch(hunks, crlf)) == Ok(Meanings(hunks))
  {
    hide Trim, TextOf, PatchLines, Hunks;
    var lines := PatchLinesOf(hunks);
    MarkersOk();
    HunksLinesOk(hunks);
    PatchLinesOk(hunks);
    LinesReadBack(lines, crlf);
    StrictBoundaries(hunks);
    assert lines[1..|lines| - 1] == PrintHunks(hunks);
    HunksParse(hunks, 2);
  }

  lemma PatchLinesOk(hunks: seq<HunkText>)
    requires HunksOk(hunks)
    ensures LinesOk(PatchLinesOf(hunks))
  {
    hide OneLine;
    MarkersOk();
    HunksLinesOk(hunks);
    LinesOkAppend([BEGIN_PATCH], PrintHunks(hunks));
    LinesOkAppend([BEGIN_PATCH] + PrintHunks(hunks), [END_PATCH]);
  }

  lemma StrictBoundaries(hunks: seq<HunkText>)
    ensures BoundaryError(PatchLinesOf(hunks)) == None
  {
    TrimFixed(BEGIN_PATCH);
    TrimFixed(END_PATCH);
  }

  lemma OpenerOk(opener: string)
    requires IsOpener(opener)
    ensures OneLine(opener) && opener != "" && !IsSpace(opener[0]) && Trim(opener) == opener
            && Trim(opener) != BEGIN_PATCH
  {
    assert !IsSpace(opener[0]) && !IsSpace(opener[|opener| - 1]);
    TrimFixed(opener);
    assert BEGIN_PATCH[0] == '*';
  }

  /** The same out of a here-document, opened with or without quotes and closed by any line
      that ends in EOF. */
  lemma ParseOfHeredoc(opener: string, hunks: seq<HunkText>, closer: string, crlf: bool)
    requires HunksOk(hunks) && IsOpener(opener) && OneLine(closer) && EndsWith(closer, "EOF")
    ensures Patch(PrintHeredoc(opener, hunks, closer, crlf)) == Ok(Meanings(hunks))
  {
    hide Trim, TextOf, PatchLines, Hunks, IsOpener, OneLine;
    var inner := PatchLinesOf(hunks);
    var lines := [opener] + inner + [closer];
    PatchLinesOk(hunks);
    OpenerOk(opener);
    CloserEnds(closer);
    LinesOkAppend([opener], inner);
    LinesOkAppend([opener] + inner, [closer]);
    assert lines[0] == opener && lines[|lines| - 1] == closer;
    LinesReadBack(lines, crlf);
    StrictBoundaries(hunks);
    HeredocBoundaries(lines);
    assert lines[1..|lines| - 1] == inner;
    assert inner[1..|inner| - 1] == PrintHunks(hunks);
    HunksParse(hunks, 2);
  }

  lemma CloserEnds(closer: string)
    requires EndsWith(closer, "EOF")
    ensures closer != "" && !IsSpace(closer[|closer| - 1])
  {
    assert closer[|closer| - 3..][2] == "EOF"[2];
  }

  lemma HeredocBoundaries(lines: seq<string>)
    requires |lines| >= 4 && IsOpener(lines[0]) && EndsWith(lines[|lines| - 1], "EOF")
    ensures BoundaryError(lines).Some? && IsHeredoc(lines)
  {
    OpenerOk(lines[0]);
  }
}
