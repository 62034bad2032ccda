/** What the patch parser overlooks (src/agents/apply-patch.ts): white space around headers and
    move lines, and blank lines between the chunks of an update. */
module PatchLayout {
  import opened Collections
  import opened Text
  import opened PatchLocate
  import opened PatchParse

  /** Two lines that say the same. */
  predicate SameLine(line: string, other: string)
  {
    Trim(line) == Trim(other)
  }

  /** The two lists of lines say the same in line `i` and are equal in the others. */
  predicate DifferInPaddingOf(lines: seq<string>, others: seq<string>, i: nat)
  {
    && i < |lines| == |others| && SameLine(lines[i], others[i])
    && others == lines[i := others[i]]
  }

  /** A header may be padded. */
  lemma HeaderMayBePadded(lines: seq<string>, others: seq<string>, lineNumber: nat)
    requires DifferInPaddingOf(lines, others, 0)
    ensures OneHunk(lines, lineNumber) == OneHunk(others, lineNumber)
  {
    hide Trim, AddedLines, Chunks;
    assert lines[1..] == others[1..];
    assert |lines| > 1 ==> lines[1] == others[1] && lines[2..] == others[2..];
  }

  /** So may the line that says where an updated file moves to. */
  lemma MoveMayBePadded(lines: seq<string>, others: seq<string>, lineNumber: nat, path: string)
    requires DifferInPaddingOf(lines, others, 1) && StartsWith(Trim(lines[1]), MOVE_TO)
    ensures UpdateHunk(lines, lineNumber, path) == UpdateHunk(others, lineNumber, path)
  {
    hide Trim, StartsWith, Chunks;
    assert lines[2..] == others[2..];
  }

  /** Blank lines in front of a chunk are counted and skipped; the error, if there is one, is that of
      the rest. */
  lemma {:induction false} BlankLinesAreSkipped(blanks: seq<string>, lines: seq<string>, lineNumber: nat,
                                                have: seq<UpdateChunk>)
    requires forall i :: 0 <= i < |blanks| ==> Trim(blanks[i]) == ""
    ensures var r := Chunks(lines, lineNumber + |blanks|, have);
      Chunks(blanks + lines, lineNumber, have)
      == if r.Ok? then Ok((r.value.0, r.value.1 + |blanks|)) else r
    decreases |blanks|
  {
    hide Chunk, StartsWith, Trim;
    if blanks == [] {
      assert blanks + lines == lines;
    } else {
      assert (blanks + lines)[1..] == blanks[1..] + lines;
      BlankLinesAreSkipped(blanks[1..], lines, lineNumber + 1, have);
    }
  }

  /** Chunks end at a line of stars, or where the lines do. */
  lemma StarsEndTheChunks(lines: seq<string>, lineNumber: nat, have: seq<UpdateChunk>)
    requires lines == [] || (StartsWith(lines[0], "***") && Trim(lines[0]) != "")
    ensures Chunks(lines, lineNumber, have) == Ok((have, 0))
  {
  }
}
