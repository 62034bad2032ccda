/** More about updating a file: what the replaced lines were, where overlapping
    replacements come from and what they do, and what an empty update leaves as it is. */
module PatchUpdateFacts {
  import opened Collections
  import opened Text
  import opened LineSeek
  import opened Splicing
  import opened PatchLocate
  import opened PatchUpdate

  /** What a chunk replaces are lines equal to its old lines, up to white space at the
      ends and punctuation, or to its old lines without a blank last one. */
  lemma ReplacedLinesAreTheOldLines(lines: seq<string>, chunk: UpdateChunk, cursor: nat)
    requires Locate(lines, chunk, cursor).Ok? && Locate(lines, chunk, cursor).value.0.oldLen > 0
    ensures var r := Locate(lines, chunk, cursor).value.0;
      || (r.oldLen == |chunk.oldLines| && MatchesAt(lines, chunk.oldLines, r.start, Folded))
      || (EndsBlank(chunk.oldLines) && r.oldLen == |chunk.oldLines| - 1
          && MatchesAt(lines, DropLast(chunk.oldLines), r.start, Folded))
  {
    var from := AfterContext(lines, chunk, cursor).value;
    if Seek(lines, chunk.oldLines, from, chunk.isEndOfFile).Some? {
      FoundLinesMatch(lines, chunk.oldLines, from, chunk.isEndOfFile);
    } else {
      FoundLinesMatch(lines, DropLast(chunk.oldLines), from, chunk.isEndOfFile);
    }
  }

  lemma FoundLinesMatch(lines: seq<string>, pattern: seq<string>, start: nat, eof: bool)
    requires pattern != [] && Seek(lines, pattern, start, eof).Some?
    ensures MatchesAt(lines, pattern, Seek(lines, pattern, start, eof).value, Folded)
  {
    SeekFindsStrictestThenFirst(lines, pattern, start, eof);
    var r := Seek(lines, pattern, start, eof).value;
    var u: Tier :| StrictestThenFirst(lines, pattern, start, eof, r, u);
    LooserTiersMatch(lines, pattern, r, u, Folded);
  }

  // ----- overlaps -----

  lemma SeekAllExactly(lines: seq<string>, eof: bool)
    requires lines != []
    ensures Seek(lines, lines, 0, eof) == Some(0)
  {
    assert FoundAt(lines, lines, 0, Normalizer(Exact));
    assert FirstMatch(lines, lines, 0, Normalizer(Exact)) == Some(0);
  }

  /** An end-of-file chunk ignores the cursor, so it can hit lines an earlier chunk has
      already replaced. */
  lemma EndOfFileChunkCanOverlap()
    ensures var lines := ["a"];
      var chunks := [UpdateChunk(None, ["a"], ["b"], false), UpdateChunk(None, ["a"], ["c"], true)];
      LocateAll(lines, chunks, 0).Ok? && !InOrder(SortByStart(LocateAll(lines, chunks, 0).value), 0, |lines|)
  {
    var lines := ["a"];
    var c1, c2 := UpdateChunk(None, ["a"], ["b"], false), UpdateChunk(None, ["a"], ["c"], true);
    var r1, r2 := Replacement(0, 1, ["b"]), Replacement(0, 1, ["c"]);
    SeekAllExactly(lines, false);
    assert SearchStart(lines, lines, 1, true) == 0;
    assert FoundAt(lines, lines, 0, Normalizer(Exact)) && FirstMatch(lines, lines, 0, Normalizer(Exact)) == Some(0);
    assert Seek(lines, lines, 1, true) == Some(0);
    assert Locate(lines, c1, 0) == Ok((r1, 1)) && Locate(lines, c2, 1) == Ok((r2, 1));
    TwoChunks(lines, c1, c2, r1, 1, r2, 1);
    assert SortByStart([r1, r2]) == [r1, r2] by {
      assert [r1, r2][1..] == [r2] && [r2][1..] == [];
      assert SortByStart([r2]) == [r2];
    }
    assert [r1, r2][1..] == [r2];
  }

  lemma TwoChunks(lines: seq<string>, c1: UpdateChunk, c2: UpdateChunk, r1: Replacement, next1: nat, r2: Replacement,
                  next2: nat)
    requires Locate(lines, c1, 0) == Ok((r1, next1)) && Locate(lines, c2, next1) == Ok((r2, next2))
    ensures LocateAll(lines, [c1, c2], 0) == Ok([r1, r2])
  {
    assert [c1, c2][1..] == [c2] && [c2][1..] == [];
    assert LocateAll(lines, [c2], next1) == Ok([r2] + []);
    assert [r1] + ([r2] + []) == [r1, r2];
  }

  /** A chunk without old lines goes before a blank last line, which an earlier chunk may
      have replaced; then the inserted lines are lost. */
  lemma InsertionBeforeBlankLineCanBeLost()
    ensures var lines := ["a", ""];
      var chunks := [UpdateChunk(None, ["a", ""], ["x"], false), UpdateChunk(None, [], ["b"], false)];
      && LocateAll(lines, chunks, 0).Ok?
      && var rs := SortByStart(LocateAll(lines, chunks, 0).value);
         !InOrder(rs, 0, |lines|) && SpliceAll(lines, rs) == ["x", ""]
  {
    var lines := ["a", ""];
    var c1, c2 := UpdateChunk(None, ["a", ""], ["x"], false), UpdateChunk(None, [], ["b"], false);
    var r1, r2 := Replacement(0, 2, ["x"]), Replacement(1, 0, ["b"]);
    SeekAllExactly(lines, false);
    assert Locate(lines, c1, 0) == Ok((r1, 2)) && Locate(lines, c2, 2) == Ok((r2, 2));
    TwoChunks(lines, c1, c2, r1, 2, r2, 2);
    assert SortByStart([r1, r2]) == [r1, r2] by {
      assert [r1, r2][1..] == [r2] && [r2][1..] == [];
      assert SortByStart([r2]) == [r2];
    }
    assert [r1, r2][1..] == [r2];
    assert Splice(lines, r2) == ["a", "b", ""];
    assert Splice(["a", "b", ""], r1) == ["x", ""];
    assert [r1, r2][..1] == [r1] && [r1][..0] == [];
    assert SpliceAll(["a", "b", ""], [r1]) == SpliceAll(["x", ""], []);
  }

  // ----- updates without chunks -----

  lemma {:induction false} SplitSnocNewline(s: string)
    ensures SplitLines(s + "\n") == SplitLines(s) + [""]
  {
    if s == "" {
      assert ("" + "\n")[1..] == "";
    } else {
      SplitSnocNewline(s[1..]);
      assert (s + "\n")[1..] == s[1..] + "\n";
    }
  }

  lemma {:induction false} JoinSnocBlank(lines: seq<string>)
    requires lines != []
    ensures Join(lines + [""], "\n") == Join(lines, "\n") + "\n"
  {
    if |lines| == 1 {
      assert (lines + [""])[1..] == [""];
    } else {
      JoinSnocBlank(lines[1..]);
      assert (lines + [""])[1..] == lines[1..] + [""];
      assert lines[0] + "\n" + (Join(lines[1..], "\n") + "\n") == lines[0] + "\n" + Join(lines[1..], "\n") + "\n";
    }
  }

  lemma WithFinalNewline(body: string)
    ensures FileText(FileLines(body + "\n")) == if body == "" || body[|body| - 1] == '\n' then body else body + "\n"
  {
    var lines := SplitLines(body);
    SplitSnocNewline(body);
    SplitEndsBlank(body);
    JoinOfSplit(body);
    JoinSnocBlank(lines);
    assert DropLast(lines + [""]) == lines;
    assert FileLines(body + "\n") == lines;
  }

  lemma WithoutFinalNewline(contents: string)
    requires contents != "" && contents[|contents| - 1] != '\n'
    ensures FileText(FileLines(contents)) == contents + "\n"
  {
    SplitEndsBlank(contents);
    JoinOfSplit(contents);
    JoinSnocBlank(SplitLines(contents));
  }

  /** The lines of a file give back its text exactly if the text is empty or ends in a
      single newline behind some other character. */
  lemma LinesGiveSameTextExactly(contents: string)
    ensures FileText(FileLines(contents)) == contents <==>
      contents == "" || (|contents| >= 2 && contents[|contents| - 1] == '\n' && contents[|contents| - 2] != '\n')
  {
    if contents == "" {
      assert FileLines("") == [];
    } else if contents[|contents| - 1] == '\n' {
      var body := contents[..|contents| - 1];
      assert contents == body + "\n";
      WithFinalNewline(body);
    } else {
      WithoutFinalNewline(contents);
    }
  }

  /** An update whose replacements leave every line as it is gives back the same text exactly
      if the text is empty or ends in a single newline behind some other character: a
      missing final newline is added, and of several the last is dropped. */
  lemma UnchangedLinesGiveSameTextExactly(contents: string, chunks: seq<UpdateChunk>)
    requires LocateAll(FileLines(contents), chunks, 0).Ok?
    requires var lines := FileLines(contents); SpliceAll(lines, SortByStart(LocateAll(lines, chunks, 0).value)) == lines
    ensures Updated(contents, chunks) == Ok(contents) <==>
      contents == "" || (|contents| >= 2 && contents[|contents| - 1] == '\n' && contents[|contents| - 2] != '\n')
  {
    hide FileLines, FileText, LocateAll, SpliceAll, SortByStart;
    LinesGiveSameTextExactly(contents);
  }
}
