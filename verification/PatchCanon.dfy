/** The hunks that can be written as a patch, and the form they are written in. */
module PatchCanon {
  import opened Collections
  import opened Text
  import opened PatchLocate
  import opened PatchParse
  import opened PatchText
  import opened PatchRoundTrip

  // ----- chunks -----

  /** A chunk with something in it, all on lines of their own. */
  ghost predicate ChunkPrintable(u: UpdateChunk)
  {
    && (u.changeContext.Some? ==> OneLine(u.changeContext.value))
    && u.oldLines + u.newLines != [] && LinesOk(u.oldLines) && LinesOk(u.newLines)
  }

  function Removals(lines: seq<string>): (body: seq<PatchLine>)
    ensures |body| == |lines|
  {
    if lines == [] then [] else [Remove(lines[0])] + Removals(lines[1..])
  }

  function Additions(lines: seq<string>): (body: seq<PatchLine>)
    ensures |body| == |lines|
  {
    if lines == [] then [] else [Add(lines[0])] + Additions(lines[1..])
  }

  /** All old lines removed, then all new lines added. */
  function CanonChunk(u: UpdateChunk): ChunkText
  {
    ChunkText(true, u.changeContext, Removals(u.oldLines) + Additions(u.newLines), u.isEndOfFile)
  }

  lemma OldOfFirst(body: seq<PatchLine>)
    requires body != []
    ensures OldOf(body) == OldPart(body[0]) + OldOf(body[1..])
    ensures NewOf(body) == NewPart(body[0]) + NewOf(body[1..])
  {
    hide OldPart, NewPart;
  }

  lemma OldOfNothing()
    ensures OldOf([]) == [] && NewOf([]) == []
  {
  }

  lemma {:induction false} OldOfAppend(a: seq<PatchLine>, b: seq<PatchLine>)
    ensures OldOf(a + b) == OldOf(a) + OldOf(b) && NewOf(a + b) == NewOf(a) + NewOf(b)
  {
    hide OldOf, NewOf, OldPart, NewPart;
    if a == [] {
      OldOfNothing();
      NothingAdded(b);
      NothingAdded(OldOf(b));
      NothingAdded(NewOf(b));
    } else {
      assert (a + b)[1..] == a[1..] + b;
      OldOfFirst(a + b);
      OldOfFirst(a);
      OldOfAppend(a[1..], b);
      Regroup(OldPart(a[0]), OldOf(a[1..]), OldOf(b));
      Regroup(NewPart(a[0]), NewOf(a[1..]), NewOf(b));
    }
  }

  lemma {:induction false} RemovalsMean(lines: seq<string>)
    requires LinesOk(lines)
    ensures OldOf(Removals(lines)) == lines && NewOf(Removals(lines)) == []
    ensures forall i :: 0 <= i < |lines| ==> OneLine(Removals(lines)[i].text)
  {
    hide OneLine;
    if lines != [] {
      RemovalsMean(lines[1..]);
    }
  }

  lemma {:induction false} AdditionsMean(lines: seq<string>)
    requires LinesOk(lines)
    ensures OldOf(Additions(lines)) == [] && NewOf(Additions(lines)) == lines
    ensures forall i :: 0 <= i < |lines| ==> OneLine(Additions(lines)[i].text)
  {
    hide OneLine;
    if lines != [] {
      AdditionsMean(lines[1..]);
    }
  }

  lemma CanonChunkMeans(u: UpdateChunk)
    requires ChunkPrintable(u)
    ensures ChunkOk(CanonChunk(u)) && CanonChunk(u).marked && ChunkMeaning(CanonChunk(u)) == u
  {
    hide OneLine, Removals, Additions, OldOf, NewOf;
    var a, b := Removals(u.oldLines), Additions(u.newLines);
    RemovalsMean(u.oldLines);
    AdditionsMean(u.newLines);
    OldOfAppend(a, b);
    forall i | 0 <= i < |a + b|
      ensures OneLine((a + b)[i].text)
    {
      assert (a + b)[i] == if i < |a| then a[i] else b[i - |a|];
    }
  }

  // ----- added files -----

  /** The lines of a text that is empty or ends in a newline. */
  function ContentLines(contents: string): seq<string>
  {
    SplitLines(contents)[..|SplitLines(contents)| - 1]
  }

  lemma {:induction false} AddedTextJoins(lines: seq<string>)
    ensures AddedText(lines) == Join(lines + [""], "\n")
  {
    if lines != [] {
      AddedTextJoins(lines[1..]);
      assert (lines + [""])[1..] == lines[1..] + [""];
    }
  }

  lemma ContentsOfLines(contents: string)
    requires contents == "" || contents[|contents| - 1] == '\n'
    ensures AddedText(ContentLines(contents)) == contents
  {
    SplitEndsBlank(contents);
    JoinOfSplit(contents);
    AddedTextJoins(ContentLines(contents));
    assert ContentLines(contents) + [""] == SplitLines(contents);
  }

  // ----- hunks -----

  /** Hunks that can be written: paths on one line that do not end in white space, contents
      that are empty or end in a newline, and chunks that are not empty, line by line. */
  ghost predicate Printable(h: Hunk)
  {
    match h
    case AddFile(path, contents) =>
      && PathOk(path) && (contents == "" || contents[|contents| - 1] == '\n')
    case DeleteFile(path) => PathOk(path)
    case UpdateFile(path, movePath, chunks) =>
      && PathOk(path) && (movePath.Some? ==> PathOk(movePath.value))
      && chunks != [] && (forall i :: 0 <= i < |chunks| ==> ChunkPrintable(chunks[i]))
  }

  function CanonChunks(chunks: seq<UpdateChunk>): (r: seq<ChunkText>)
    ensures |r| == |chunks|
  {
    if chunks == [] then [] else [CanonChunk(chunks[0])] + CanonChunks(chunks[1..])
  }

  function Canon(h: Hunk): HunkText
  {
    match h
    case AddFile(path, contents) => AddText(path, ContentLines(contents))
    case DeleteFile(path) => DeleteText(path)
    case UpdateFile(path, movePath, chunks) => UpdateText(path, movePath, CanonChunks(chunks))
  }

  lemma {:induction false} CanonChunksMean(chunks: seq<UpdateChunk>)
    requires forall i :: 0 <= i < |chunks| ==> ChunkPrintable(chunks[i])
    ensures ChunkMeanings(CanonChunks(chunks)) == chunks
    ensures forall i :: 0 <= i < |chunks| ==> ChunkOk(CanonChunks(chunks)[i]) && CanonChunks(chunks)[i].marked
  {
    hide ChunkOk, ChunkPrintable, CanonChunk, ChunkMeaning;
    if chunks != [] {
      CanonChunkMeans(chunks[0]);
      CanonChunksMean(chunks[1..]);
    }
  }

  /** The canonical form of a printable hunk can be written and means the hunk. */
  lemma CanonMeans(h: Hunk)
    requires Printable(h)
    ensures HunkOk(Canon(h)) && Meaning(Canon(h)) == h
  {
    hide ChunkOk, ChunkPrintable, OneLine, PathOk;
    match h
    case AddFile(_, contents) =>
      ContentsOfLines(contents);
      SplitGivesLines(contents);
    case DeleteFile(_) =>
    case UpdateFile(_, _, chunks) =>
      CanonChunksMean(chunks);
      assert CanonChunks(chunks)[0].marked && ChunkOk(CanonChunks(chunks)[0]);
  }

  // ----- the round trip on hunks -----

  function Canons(hunks: seq<Hunk>): (r: seq<HunkText>)
    ensures |r| == |hunks|
  {
    if hunks == [] then [] else [Canon(hunks[0])] + Canons(hunks[1..])
  }

  lemma {:induction false} CanonsMean(hunks: seq<Hunk>)
    requires forall i :: 0 <= i < |hunks| ==> Printable(hunks[i])
    ensures HunksOk(Canons(hunks)) && Meanings(Canons(hunks)) == hunks
  {
    hide Printable, Canon, HunkOk, Meaning;
    if hunks != [] {
      CanonMeans(hunks[0]);
      CanonsMean(hunks[1..]);
    }
  }

  /** Printing any printable hunks and parsing the patch returns the same hunks, bare and out
      of a here-document, with and without carriage returns. */
  lemma ParseOfPrintedHunks(hunks: seq<Hunk>, opener: string, closer: string, crlf: bool)
    requires forall i :: 0 <= i < |hunks| ==> Printable(hunks[i])
    requires IsOpener(opener) && OneLine(closer) && EndsWith(closer, "EOF")
    ensures Patch(PrintPatch(Canons(hunks), crlf)) == Ok(hunks)
    ensures Patch(PrintHeredoc(opener, Canons(hunks), closer, crlf)) == Ok(hunks)
  {
    hide Patch, PrintPatch, PrintHeredoc, Printable, HunksOk, Canons, Meanings;
    CanonsMean(hunks);
    ParseOfPrint(Canons(hunks), crlf);
    ParseOfHeredoc(opener, Canons(hunks), closer, crlf);
  }
}
