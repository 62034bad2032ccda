/** When the sorted replacements of an update are in order, in bounds and disjoint
    (`computeReplacements` in src/agents/apply-patch-update.ts). */
module PatchOrder {
  import opened Collections
  import opened LineSeek
  import opened Splicing
  import opened PatchLocate

  /** Of two replacements, `a` found first, the one that starts first ends before the other
      begins; of two with the same start, `a` counts as first. */
  predicate PairFits(a: Replacement, b: Replacement)
  {
    if a.start <= b.start then a.End() <= b.start else b.End() <= a.start
  }

  // ----- sorting and order -----

  lemma {:induction false} InsertFits(r: Replacement, s: seq<Replacement>, from: nat, n: nat)
    requires InOrder(s, from, n) && from <= r.start && r.End() <= n
    requires forall x :: x in s ==> PairFits(r, x)
    ensures InOrder(InsertByStart(r, s), from, n)
    decreases |s|
  {
    if s == [] || r.start <= s[0].start {
      assert ([r] + s)[1..] == s;
      assert s != [] ==> PairFits(r, s[0]);
    } else {
      assert PairFits(r, s[0]);
      InsertFits(r, s[1..], s[0].End(), n);
      assert ([s[0]] + InsertByStart(r, s[1..]))[1..] == InsertByStart(r, s[1..]);
    }
  }

  lemma {:induction false} FittingPairsSort(rs: seq<Replacement>, n: nat)
    requires forall i :: 0 <= i < |rs| ==> rs[i].End() <= n
    requires forall i, j :: 0 <= i < j < |rs| ==> PairFits(rs[i], rs[j])
    ensures InOrder(SortByStart(rs), 0, n)
  {
    if rs != [] {
      var r, rest := rs[0], rs[1..];
      assert forall i :: 0 <= i < |rest| ==> rest[i] == rs[i + 1];
      FittingPairsSort(rest, n);
      SortIsStable(rest, 0);
      forall x | x in SortByStart(rest)
        ensures PairFits(r, x)
      {
        assert x in multiset(SortByStart(rest));
        var i :| 0 <= i < |rest| && rest[i] == x;
        assert rs[i + 1] == x;
      }
      InsertFits(r, SortByStart(rest), 0, n);
    }
  }

  lemma {:induction false} InsertedInFront(r: Replacement, s: seq<Replacement>, x: Replacement) returns (p: nat, q: nat)
    requires x in s && r.start <= x.start
    ensures p < q < |InsertByStart(r, s)| && InsertByStart(r, s)[p] == r && InsertByStart(r, s)[q] == x
  {
    if r.start <= s[0].start {
      var k :| 0 <= k < |s| && s[k] == x;
      p, q := 0, k + 1;
    } else {
      p, q := InsertedInFront(r, s[1..], x);
      p, q := p + 1, q + 1;
    }
  }

  lemma {:induction false} InsertKeepsOne(r: Replacement, s: seq<Replacement>, q: nat) returns (k: nat)
    requires q < |s|
    ensures k < |InsertByStart(r, s)| && InsertByStart(r, s)[k] == s[q]
  {
    if r.start <= s[0].start {
      k := q + 1;
    } else if q == 0 {
      k := 0;
    } else {
      k := InsertKeepsOne(r, s[1..], q - 1);
      k := k + 1;
    }
  }

  lemma {:induction false} InsertKeepsOrder(r: Replacement, s: seq<Replacement>, p: nat, q: nat)
    returns (i: nat, j: nat)
    requires p < q < |s|
    ensures i < j < |InsertByStart(r, s)| && InsertByStart(r, s)[i] == s[p] && InsertByStart(r, s)[j] == s[q]
  {
    if r.start <= s[0].start {
      i, j := p + 1, q + 1;
    } else if p == 0 {
      var k := InsertKeepsOne(r, s[1..], q - 1);
      i, j := 0, k + 1;
    } else {
      i, j := InsertKeepsOrder(r, s[1..], p - 1, q - 1);
      i, j := i + 1, j + 1;
    }
  }

  lemma SortKeepsOne(rs: seq<Replacement>, i: nat) returns (p: nat)
    requires i < |rs|
    ensures p < |SortByStart(rs)| && SortByStart(rs)[p] == rs[i]
  {
    SortIsStable(rs, 0);
    assert rs[i] in multiset(SortByStart(rs));
    p :| 0 <= p < |SortByStart(rs)| && SortByStart(rs)[p] == rs[i];
  }

  /** A replacement found first stays before one found later, unless that starts earlier. */
  lemma {:induction false} SortKeepsOrder(rs: seq<Replacement>, i: nat, j: nat) returns (p: nat, q: nat)
    requires i < j < |rs| && rs[i].start <= rs[j].start
    ensures p < q < |SortByStart(rs)| && SortByStart(rs)[p] == rs[i] && SortByStart(rs)[q] == rs[j]
  {
    if i == 0 {
      var k := SortKeepsOne(rs[1..], j - 1);
      p, q := InsertedInFront(rs[0], SortByStart(rs[1..]), rs[j]);
    } else {
      p, q := SortKeepsOrder(rs[1..], i - 1, j - 1);
      p, q := InsertKeepsOrder(rs[0], SortByStart(rs[1..]), p, q);
    }
  }

  lemma EarlierEnds(sorted: seq<Replacement>, p: nat, q: nat, n: nat)
    requires InOrder(sorted, 0, n) && p < |sorted| && q < |sorted| && sorted[p].start < sorted[q].start
    ensures sorted[p].End() <= sorted[q].start
  {
    InOrderMeans(sorted, 0, n);
  }

  lemma OrderedPairFits(rs: seq<Replacement>, n: nat, i: nat, j: nat)
    requires InOrder(SortByStart(rs), 0, n) && i < j < |rs|
    ensures PairFits(rs[i], rs[j])
  {
    var sorted := SortByStart(rs);
    InOrderMeans(sorted, 0, n);
    if rs[i].start <= rs[j].start {
      var p, q := SortKeepsOrder(rs, i, j);
      assert sorted[p].End() <= sorted[q].start;
    } else {
      var p := SortKeepsOne(rs, i);
      var q := SortKeepsOne(rs, j);
      EarlierEnds(sorted, q, p, n);
    }
  }

  /** The sorted replacements are in order if and only if they are in bounds and every two
      of them fit. */
  lemma SortedInOrderExactly(rs: seq<Replacement>, n: nat)
    ensures InOrder(SortByStart(rs), 0, n) <==>
      && (forall i :: 0 <= i < |rs| ==> rs[i].End() <= n)
      && (forall i, j :: 0 <= i < j < |rs| ==> PairFits(rs[i], rs[j]))
  {
    if InOrder(SortByStart(rs), 0, n) {
      InOrderMeans(SortByStart(rs), 0, n);
      forall i | 0 <= i < |rs|
        ensures rs[i].End() <= n
      {
        var p := SortKeepsOne(rs, i);
      }
      forall i, j | 0 <= i < j < |rs|
        ensures PairFits(rs[i], rs[j])
      {
        OrderedPairFits(rs, n, i, j);
      }
    } else if (forall i :: 0 <= i < |rs| ==> rs[i].End() <= n)
              && (forall i, j :: 0 <= i < j < |rs| ==> PairFits(rs[i], rs[j])) {
      FittingPairsSort(rs, n);
    }
  }

  // ----- located chunks -----

  lemma SeekStaysBehindCursor(lines: seq<string>, pattern: seq<string>, cursor: nat)
    requires cursor <= |lines|
    ensures var r := Seek(lines, pattern, cursor, false);
      r.Some? ==> cursor <= r.value && r.value + |pattern| <= |lines|
  {
    if pattern != [] {
      SeekFindsStrictestThenFirst(lines, pattern, cursor, false);
      var r := Seek(lines, pattern, cursor, false);
      if r.Some? {
        var u: Tier :| StrictestThenFirst(lines, pattern, cursor, false, r.value, u);
      }
    }
  }

  /** A search from the end finds its lines at the very end. */
  lemma SeekAtEnd(lines: seq<string>, pattern: seq<string>, cursor: nat)
    requires pattern != [] && Seek(lines, pattern, cursor, true).Some?
    ensures |pattern| <= |lines| && Seek(lines, pattern, cursor, true).value == |lines| - |pattern|
  {
    var from := SearchStart(lines, pattern, cursor, true);
    FirstMatchIsLeast(lines, pattern, from, Normalizer(DecidingTier(lines, pattern, from)));
  }

  /** The two kinds of chunks that do not follow the cursor: one that looks for its lines at
      the end of the file, and an insertion before a blank last line. */
  predicate Special(lines: seq<string>, chunk: UpdateChunk)
  {
    if chunk.oldLines == [] then EndsBlank(lines) else chunk.isEndOfFile
  }

  /** No chunk is special. */
  predicate Plain(lines: seq<string>, chunks: seq<UpdateChunk>)
  {
    forall i :: 0 <= i < |chunks| ==> !Special(lines, chunks[i])
  }

  lemma ContextMovesOn(lines: seq<string>, chunk: UpdateChunk, cursor: nat)
    requires cursor <= |lines| && AfterContext(lines, chunk, cursor).Ok?
    ensures cursor <= AfterContext(lines, chunk, cursor).value <= |lines|
  {
    if chunk.changeContext.Some? {
      SeekStaysBehindCursor(lines, [chunk.changeContext.value], cursor);
    }
  }

  /** Every replacement is in bounds and the cursor never goes back; a chunk that is not
      special is replaced at or behind the cursor, up to the next one, or inserted at the
      end. */
  lemma LocateMovesOn(lines: seq<string>, chunk: UpdateChunk, cursor: nat)
    requires cursor <= |lines| && Locate(lines, chunk, cursor).Ok?
    ensures var (r, next) := Locate(lines, chunk, cursor).value;
      && cursor <= next <= |lines| && r.End() <= |lines|
      && (!Special(lines, chunk) ==>
            (r.start == |lines| && r.oldLen == 0) || (cursor <= r.start && r.End() == next))
  {
    hide Seek, AfterContext;
    ContextMovesOn(lines, chunk, cursor);
    var from := AfterContext(lines, chunk, cursor).value;
    if chunk.oldLines != [] {
      SearchMovesOn(lines, chunk.oldLines, from, chunk.isEndOfFile);
      if EndsBlank(chunk.oldLines) {
        SearchMovesOn(lines, DropLast(chunk.oldLines), from, chunk.isEndOfFile);
      }
    }
  }

  lemma SearchMovesOn(lines: seq<string>, pattern: seq<string>, from: nat, eof: bool)
    requires from <= |lines|
    ensures var r := Seek(lines, pattern, from, eof);
      r.Some? ==> from <= r.value + |pattern| <= |lines| && (!eof ==> from <= r.value)
  {
    SeekStaysBehindCursor(lines, pattern, from);
    if eof && pattern != [] && Seek(lines, pattern, from, true).Some? {
      SeekAtEnd(lines, pattern, from);
    }
  }

  /** The cursor from which chunk `k` was located. */
  lemma {:induction false} LocatedAt(lines: seq<string>, chunks: seq<UpdateChunk>, cursor: nat, k: nat) returns (c: nat)
    requires cursor <= |lines| && LocateAll(lines, chunks, cursor).Ok? && k < |chunks|
    ensures |LocateAll(lines, chunks, cursor).value| == |chunks|
    ensures cursor <= c <= |lines| && Locate(lines, chunks[k], c).Ok?
    ensures Locate(lines, chunks[k], c).value.0 == LocateAll(lines, chunks, cursor).value[k]
    decreases |chunks|
  {
    hide Locate;
    var (r, next) := Locate(lines, chunks[0], cursor).value;
    LocateMovesOn(lines, chunks[0], cursor);
    if k == 0 {
      c := cursor;
      if |chunks| > 1 {
        var _ := LocatedAt(lines, chunks[1..], next, 0);
      }
    } else {
      c := LocatedAt(lines, chunks[1..], next, k - 1);
    }
  }

  lemma LocatedInBounds(lines: seq<string>, chunks: seq<UpdateChunk>, k: nat)
    requires LocateAll(lines, chunks, 0).Ok? && k < |chunks|
    ensures |LocateAll(lines, chunks, 0).value| == |chunks|
    ensures LocateAll(lines, chunks, 0).value[k].End() <= |lines|
  {
    var c := LocatedAt(lines, chunks, 0, k);
    LocateMovesOn(lines, chunks[k], c);
  }

  /** Two chunks that are not special fit. */
  lemma {:induction false} PlainPairFits(lines: seq<string>, chunks: seq<UpdateChunk>, cursor: nat, i: nat, j: nat)
    requires cursor <= |lines| && LocateAll(lines, chunks, cursor).Ok? && i < j < |chunks|
    requires !Special(lines, chunks[i]) && !Special(lines, chunks[j])
    ensures |LocateAll(lines, chunks, cursor).value| == |chunks|
    ensures var rs := LocateAll(lines, chunks, cursor).value; PairFits(rs[i], rs[j])
    decreases |chunks|
  {
    hide Locate, Special;
    var (r, next) := Locate(lines, chunks[0], cursor).value;
    LocateMovesOn(lines, chunks[0], cursor);
    if i == 0 {
      var c := LocatedAt(lines, chunks[1..], next, j - 1);
      LocateMovesOn(lines, chunks[j], c);
    } else {
      PlainPairFits(lines, chunks[1..], next, i - 1, j - 1);
    }
  }

  /** The replacements of any located chunks, sorted, are in order, in bounds and disjoint if
      and only if every pair with a special chunk in it fits. */
  lemma ReplacementsInOrderExactly(lines: seq<string>, chunks: seq<UpdateChunk>)
    requires LocateAll(lines, chunks, 0).Ok?
    ensures |LocateAll(lines, chunks, 0).value| == |chunks|
    ensures var rs := LocateAll(lines, chunks, 0).value;
      InOrder(SortByStart(rs), 0, |lines|) <==>
        forall i, j :: 0 <= i < j < |chunks| && (Special(lines, chunks[i]) || Special(lines, chunks[j])) ==>
          PairFits(rs[i], rs[j])
  {
    hide LocateAll, SortByStart, PairFits, Special, InOrder;
    var rs := LocateAll(lines, chunks, 0).value;
    LengthsAgree(lines, chunks, 0);
    SortedInOrderExactly(rs, |lines|);
    forall i | 0 <= i < |rs|
      ensures rs[i].End() <= |lines|
    {
      LocatedInBounds(lines, chunks, i);
    }
    forall i, j | 0 <= i < j < |rs| && !(Special(lines, chunks[i]) || Special(lines, chunks[j]))
      ensures PairFits(rs[i], rs[j])
    {
      PlainPairFits(lines, chunks, 0, i, j);
    }
  }

  lemma {:induction false} LengthsAgree(lines: seq<string>, chunks: seq<UpdateChunk>, cursor: nat)
    requires LocateAll(lines, chunks, cursor).Ok?
    ensures |LocateAll(lines, chunks, cursor).value| == |chunks|
    decreases |chunks|
  {
    hide Locate;
    if chunks != [] {
      LengthsAgree(lines, chunks[1..], Locate(lines, chunks[0], cursor).value.1);
    }
  }

  /** Without special chunks the replacements are in order. */
  lemma PlainReplacementsInOrder(lines: seq<string>, chunks: seq<UpdateChunk>)
    requires Plain(lines, chunks) && LocateAll(lines, chunks, 0).Ok?
    ensures InOrder(SortByStart(LocateAll(lines, chunks, 0).value), 0, |lines|)
  {
    hide LocateAll, SortByStart, InOrder;
    ReplacementsInOrderExactly(lines, chunks);
  }

  // ----- what fitting means for special chunks -----

  /** An end-of-file chunk that replaces lines replaces the last lines of the file. An
      earlier run fits it if it ends where that begins or before, or is at the very end; a
      later one if it is at the very end, or begins and ends before. */
  lemma EndOfFileFits(lines: seq<string>, chunk: UpdateChunk, cursor: nat, x: Replacement)
    requires cursor <= |lines| && chunk.isEndOfFile && Locate(lines, chunk, cursor).Ok? && x.End() <= |lines|
    requires Locate(lines, chunk, cursor).value.0.oldLen > 0
    ensures var r := Locate(lines, chunk, cursor).value.0;
      && r.End() == |lines|
      && (PairFits(x, r) <==> x.End() <= r.start || x.start == |lines|)
      && (PairFits(r, x) <==> x.start == |lines| || (x.start < r.start && x.End() <= r.start))
  {
    var from := AfterContext(lines, chunk, cursor).value;
    if Seek(lines, chunk.oldLines, from, true).Some? {
      SeekAtEnd(lines, chunk.oldLines, from);
    } else {
      SeekAtEnd(lines, DropLast(chunk.oldLines), from);
    }
  }

  /** An insertion goes before a blank last line. An earlier run fits it if it does not reach
      that line; a later one also if it starts at it. */
  lemma InsertionFits(lines: seq<string>, chunk: UpdateChunk, cursor: nat, x: Replacement)
    requires EndsBlank(lines) && chunk.oldLines == [] && Locate(lines, chunk, cursor).Ok? && x.End() <= |lines|
    ensures var r := Locate(lines, chunk, cursor).value.0;
      && r.start + 1 == |lines| && r.oldLen == 0
      && (PairFits(x, r) <==> x.End() < |lines| || x.start == |lines|)
      && (PairFits(r, x) <==> x.End() < |lines| || x.start + 1 >= |lines|)
  {
  }

  /** Two end-of-file chunks that replace lines are never in order. */
  lemma TwoEndOfFileChunksOverlap(lines: seq<string>, chunks: seq<UpdateChunk>, i: nat, j: nat)
    requires LocateAll(lines, chunks, 0).Ok? && i < j < |chunks| && chunks[i].isEndOfFile && chunks[j].isEndOfFile
    requires |LocateAll(lines, chunks, 0).value| == |chunks|
    requires LocateAll(lines, chunks, 0).value[i].oldLen > 0 && LocateAll(lines, chunks, 0).value[j].oldLen > 0
    ensures !InOrder(SortByStart(LocateAll(lines, chunks, 0).value), 0, |lines|)
  {
    hide LocateAll, Locate, SortByStart, InOrder;
    var rs := LocateAll(lines, chunks, 0).value;
    var c := LocatedAt(lines, chunks, 0, i);
    var d := LocatedAt(lines, chunks, 0, j);
    LocatedInBounds(lines, chunks, i);
    EndOfFileFits(lines, chunks[i], c, rs[i]);
    EndOfFileFits(lines, chunks[j], d, rs[i]);
    SortedInOrderExactly(rs, |lines|);
    assert !PairFits(rs[i], rs[j]);
  }
}
