/** Where the chunks of an update hunk go: each becomes a replacement of lines, found from
    a cursor on, and the replacements are sorted (`computeReplacements` in
    src/agents/apply-patch-update.ts). */
module PatchLocate {
  import opened Collections
  import opened Text
  import opened LineSeek
  import opened Splicing

  datatype UpdateChunk = UpdateChunk(
    changeContext: Option<string>,
    oldLines: seq<string>,
    newLines: seq<string>,
    isEndOfFile: bool)

  datatype UpdateError = ContextNotFound(context: string) | LinesNotFound(oldLines: seq<string>)

  predicate EndsBlank(lines: seq<string>)
  {
    lines != [] && lines[|lines| - 1] == ""
  }

  function DropLast(lines: seq<string>): seq<string>
    requires lines != []
  {
    lines[..|lines| - 1]
  }

  /** A chunk without old lines goes to the end of the file, before a blank last line. */
  function InsertionIndex(lines: seq<string>): nat
  {
    if EndsBlank(lines) then |lines| - 1 else |lines|
  }

  /** The cursor after the chunk's context line, if it names one. */
  function AfterContext(lines: seq<string>, chunk: UpdateChunk, cursor: nat): Result<nat, UpdateError>
  {
    if chunk.changeContext.None? || chunk.changeContext.value == "" then Ok(cursor)
    else match Seek(lines, [chunk.changeContext.value], cursor, false)
      case None => Err(ContextNotFound(chunk.changeContext.value))
      case Some(i) => Ok(i + 1)
  }

  /** The replacement of the pattern found at `found`, and the cursor after it. */
  function Placed(found: Option<nat>, pattern: seq<string>, newLines: seq<string>, chunk: UpdateChunk):
    Result<(Replacement, nat), UpdateError>
  {
    match found
    case Some(i) => Ok((Replacement(i, |pattern|, newLines), i + |pattern|))
    case None => Err(LinesNotFound(chunk.oldLines))
  }

  /** The second try, without the blank last line. */
  function LocateShorter(lines: seq<string>, chunk: UpdateChunk, cursor: nat): Result<(Replacement, nat), UpdateError>
    requires EndsBlank(chunk.oldLines)
  {
    var pattern := DropLast(chunk.oldLines);
    var newSlice := if EndsBlank(chunk.newLines) then DropLast(chunk.newLines) else chunk.newLines;
    Placed(Seek(lines, pattern, cursor, chunk.isEndOfFile), pattern, newSlice, chunk)
  }

  /** The chunk's replacement from the cursor on, and the cursor after it. */
  function LocateLines(lines: seq<string>, chunk: UpdateChunk, cursor: nat): Result<(Replacement, nat), UpdateError>
  {
    if chunk.oldLines == [] then Ok((Replacement(InsertionIndex(lines), 0, chunk.newLines), cursor))
    else
      var found := Seek(lines, chunk.oldLines, cursor, chunk.isEndOfFile);
      if found.None? && EndsBlank(chunk.oldLines) then LocateShorter(lines, chunk, cursor)
      else Placed(found, chunk.oldLines, chunk.newLines, chunk)
  }

  function Locate(lines: seq<string>, chunk: UpdateChunk, cursor: nat): Result<(Replacement, nat), UpdateError>
  {
    match AfterContext(lines, chunk, cursor)
    case Err(e) => Err(e)
    case Ok(from) => LocateLines(lines, chunk, from)
  }

  /** The replacements in the order of the chunks, or the first error. */
  function LocateAll(lines: seq<string>, chunks: seq<UpdateChunk>, cursor: nat): Result<seq<Replacement>, UpdateError>
    decreases |chunks|
  {
    if chunks == [] then Ok([])
    else match Locate(lines, chunks[0], cursor)
      case Err(e) => Err(e)
      case Ok((r, next)) =>
        match LocateAll(lines, chunks[1..], next)
        case Err(e) => Err(e)
        case Ok(rs) => Ok([r] + rs)
  }

  // ----- sorting -----

  function InsertByStart(r: Replacement, rs: seq<Replacement>): seq<Replacement>
  {
    if rs == [] || r.start <= rs[0].start then [r] + rs else [rs[0]] + InsertByStart(r, rs[1..])
  }

  /** `replacements.sort((a, b) => a[0] - b[0])`; see `SortIsStable`. */
  function SortByStart(rs: seq<Replacement>): seq<Replacement>
  {
    if rs == [] then [] else InsertByStart(rs[0], SortByStart(rs[1..]))
  }

  function IfAt(r: Replacement, start: nat): seq<Replacement>
  {
    if r.start == start then [r] else []
  }

  /** Those of the replacements that start at `start`, in order. */
  function AtStart(rs: seq<Replacement>, start: nat): seq<Replacement>
  {
    if rs == [] then [] else IfAt(rs[0], start) + AtStart(rs[1..], start)
  }

  ghost predicate Sorted(rs: seq<Replacement>)
  {
    forall i, j :: 0 <= i < j < |rs| ==> rs[i].start <= rs[j].start
  }

  lemma SortedCons(r: Replacement, rs: seq<Replacement>)
    requires Sorted(rs) && forall i :: 0 <= i < |rs| ==> r.start <= rs[i].start
    ensures Sorted([r] + rs)
  {
  }

  lemma {:induction false} InsertSorts(r: Replacement, rs: seq<Replacement>)
    requires Sorted(rs)
    ensures var all := InsertByStart(r, rs); multiset(all) == multiset([r]) + multiset(rs) && Sorted(all)
  {
    if rs == [] || r.start <= rs[0].start {
      assert InsertByStart(r, rs) == [r] + rs;
    } else {
      assert Sorted(rs[1..]) && rs == [rs[0]] + rs[1..];
      InsertSorts(r, rs[1..]);
      var rest := InsertByStart(r, rs[1..]);
      forall i | 0 <= i < |rest|
        ensures rs[0].start <= rest[i].start
      {
        assert rest[i] in multiset([r]) + multiset(rs[1..]);
        assert rest[i] == r || rest[i] in rs[1..];
      }
      SortedCons(rs[0], rest);
    }
  }

  lemma AtStartCons(r: Replacement, rs: seq<Replacement>, start: nat)
    ensures AtStart([r] + rs, start) == IfAt(r, start) + AtStart(rs, start)
  {
    assert ([r] + rs)[1..] == rs;
  }

  lemma Commute(a: Replacement, b: Replacement, start: nat, rest: seq<Replacement>)
    requires a.start != b.start
    ensures IfAt(a, start) + (IfAt(b, start) + rest) == IfAt(b, start) + (IfAt(a, start) + rest)
  {
  }

  lemma {:induction false} InsertIsStable(r: Replacement, rs: seq<Replacement>, start: nat)
    ensures AtStart(InsertByStart(r, rs), start) == AtStart([r] + rs, start)
  {
    if rs != [] && r.start > rs[0].start {
      InsertIsStable(r, rs[1..], start);
      AtStartCons(rs[0], InsertByStart(r, rs[1..]), start);
      AtStartCons(r, rs[1..], start);
      AtStartCons(r, rs, start);
      Commute(r, rs[0], start, AtStart(rs[1..], start));
    }
  }

  /** The sorted list has the same replacements, by increasing start, and those with
      the same start in the order they were found. */
  lemma {:induction false} SortIsStable(rs: seq<Replacement>, start: nat)
    ensures var sorted := SortByStart(rs);
      multiset(sorted) == multiset(rs) && Sorted(sorted) && AtStart(sorted, start) == AtStart(rs, start)
  {
    if rs != [] {
      SortIsStable(rs[1..], start);
      InsertSorts(rs[0], SortByStart(rs[1..]));
      InsertIsStable(rs[0], SortByStart(rs[1..]), start);
      AtStartCons(rs[0], SortByStart(rs[1..]), start);
      assert rs == [rs[0]] + rs[1..];
    }
  }
}
