/** Replacing runs of lines in place, last first (`applyReplacements` in
    src/agents/apply-patch-update.ts), and when that is the simultaneous replacement. */
module Splicing {
  import opened Collections

  /** The `oldLen` lines from `start` on give way to `newLines`. */
  datatype Replacement = Replacement(start: nat, oldLen: nat, newLines: seq<string>)
  {
    function End(): nat { start + oldLen }
  }

  function Least(a: nat, b: nat): nat { if a < b then a else b }

  /** What the two inner loops do for one replacement, in bounds or not. */
  function Splice(lines: seq<string>, r: Replacement): seq<string>
  {
    lines[..Least(r.start, |lines|)] + r.newLines + lines[Least(r.End(), |lines|)..]
  }

  function SpliceAll(lines: seq<string>, rs: seq<Replacement>): seq<string>
    decreases |rs|
  {
    if rs == [] then lines else SpliceAll(Splice(lines, rs[|rs| - 1]), rs[..|rs| - 1])
  }

  /** In order from line `from` on, within `n` lines, and none reaches into the next. */
  ghost predicate InOrder(rs: seq<Replacement>, from: nat, n: nat)
    decreases |rs|
  {
    if rs == [] then from <= n else from <= rs[0].start && InOrder(rs[1..], rs[0].End(), n)
  }

  /** That is: in bounds, sorted, and pairwise disjoint. */
  lemma {:induction false} InOrderMeans(rs: seq<Replacement>, from: nat, n: nat)
    requires InOrder(rs, from, n)
    ensures from <= n
    ensures forall i :: 0 <= i < |rs| ==> from <= rs[i].start && rs[i].End() <= n
    ensures forall i, j :: 0 <= i < j < |rs| ==> rs[i].End() <= rs[j].start
    decreases |rs|
  {
    if rs != [] {
      InOrderMeans(rs[1..], rs[0].End(), n);
    }
  }

  /** The simultaneous replacement: every line outside the replaced runs stays, in order,
      and each run becomes its new lines. */
  function Substitute(lines: seq<string>, rs: seq<Replacement>, from: nat): seq<string>
    requires InOrder(rs, from, |lines|)
    decreases |rs|
  {
    InOrderMeans(rs, from, |lines|);
    if rs == [] then lines[from..]
    else lines[from..rs[0].start] + rs[0].newLines + Substitute(lines, rs[1..], rs[0].End())
  }

  lemma {:induction false} InOrderSnoc(rs: seq<Replacement>, r: Replacement, from: nat, n: nat)
    ensures InOrder(rs + [r], from, n) <==> InOrder(rs, from, r.start) && r.End() <= n
    decreases |rs|
  {
    if rs == [] {
      assert (rs + [r])[1..] == [];
    } else {
      assert (rs + [r])[1..] == rs[1..] + [r];
      InOrderSnoc(rs[1..], r, rs[0].End(), n);
    }
  }

  lemma {:induction false} InOrderWiden(rs: seq<Replacement>, from: nat, n: nat, wider: nat)
    requires InOrder(rs, from, n) && n <= wider
    ensures InOrder(rs, from, wider)
    decreases |rs|
  {
    if rs != [] {
      InOrderWiden(rs[1..], rs[0].End(), n, wider);
    }
  }

  /** Lines behind all the runs are just carried over. */
  lemma {:induction false} SubstituteCarries(lines: seq<string>, behind: seq<string>, rs: seq<Replacement>, from: nat)
    requires InOrder(rs, from, |lines|)
    ensures InOrder(rs, from, |lines + behind|)
    ensures Substitute(lines + behind, rs, from) == Substitute(lines, rs, from) + behind
    decreases |rs|
  {
    InOrderWiden(rs, from, |lines|, |lines + behind|);
    InOrderMeans(rs, from, |lines|);
    if rs == [] {
      assert (lines + behind)[from..] == lines[from..] + behind;
    } else {
      SubstituteCarries(lines, behind, rs[1..], rs[0].End());
      assert (lines + behind)[from..rs[0].start] == lines[from..rs[0].start];
    }
  }

  lemma RegroupFive(a: seq<string>, b: seq<string>, c: seq<string>, d: seq<string>, e: seq<string>)
    ensures a + b + (c + d + e) == a + b + c + d + e
  {
    Regroup(a + b, c + d, e);
    Regroup(a + b, c, d);
  }

  /** The first run of a simultaneous replacement. */
  lemma SubstituteStep(lines: seq<string>, rs: seq<Replacement>, from: nat)
    requires rs != [] && InOrder(rs, from, |lines|)
    ensures from <= rs[0].start <= rs[0].End() <= |lines| && InOrder(rs[1..], rs[0].End(), |lines|)
    ensures Substitute(lines, rs, from)
         == lines[from..rs[0].start] + rs[0].newLines + Substitute(lines, rs[1..], rs[0].End())
  {
    InOrderMeans(rs, from, |lines|);
  }

  lemma SubstituteNothing(lines: seq<string>, from: nat)
    requires from <= |lines|
    ensures InOrder([], from, |lines|) && Substitute(lines, [], from) == lines[from..]
  {
  }

  /** Taking the last run off the end of a simultaneous replacement. */
  lemma {:induction false} SubstituteLast(lines: seq<string>, rs: seq<Replacement>, r: Replacement, from: nat)
    requires InOrder(rs, from, r.start) && r.End() <= |lines|
    ensures InOrder(rs + [r], from, |lines|)
    ensures Substitute(lines, rs + [r], from) == Substitute(lines[..r.start], rs, from) + r.newLines + lines[r.End()..]
    decreases |rs|
  {
    hide InOrder, Substitute;
    InOrderSnoc(rs, r, from, |lines|);
    SubstituteStep(lines, rs + [r], from);
    if rs == [] {
      assert rs + [r] == [r];
      assert [r][1..] == [];
      InOrderMeans(rs, from, r.start);
      SubstituteNothing(lines, r.End());
      SubstituteNothing(lines[..r.start], from);
      assert lines[..r.start][from..] == lines[from..r.start];
    } else {
      var first, head := rs[0], lines[..r.start];
      assert (rs + [r])[1..] == rs[1..] + [r] && (rs + [r])[0] == first;
      SubstituteStep(head, rs, from);
      SubstituteLast(lines, rs[1..], r, first.End());
      assert head[from..first.start] == lines[from..first.start];
      RegroupFive(lines[from..first.start], first.newLines, Substitute(head, rs[1..], first.End()), r.newLines,
                  lines[r.End()..]);
    }
  }

  /** Splicing in place from the last run to the first is the simultaneous replacement. */
  lemma {:induction false} SplicingIsSubstitution(lines: seq<string>, rs: seq<Replacement>)
    requires InOrder(rs, 0, |lines|)
    ensures SpliceAll(lines, rs) == Substitute(lines, rs, 0)
    decreases |rs|
  {
    if rs != [] {
      var r, before := rs[|rs| - 1], rs[..|rs| - 1];
      assert rs == before + [r];
      InOrderSnoc(before, r, 0, |lines|);
      LastSplice(lines, before, r);
      SplicingIsSubstitution(Splice(lines, r), before);
      SubstituteLast(lines, before, r, 0);
    }
  }

  lemma LastSplice(lines: seq<string>, before: seq<Replacement>, r: Replacement)
    requires InOrder(before, 0, r.start) && r.End() <= |lines|
    ensures InOrder(before, 0, |Splice(lines, r)|)
    ensures Substitute(Splice(lines, r), before, 0)
         == Substitute(lines[..r.start], before, 0) + r.newLines + lines[r.End()..]
  {
    var head, behind := lines[..r.start], r.newLines + lines[r.End()..];
    SubstituteCarries(head, behind, before, 0);
    assert Splice(lines, r) == head + behind;
  }

  // ----- untouched lines -----

  /** How far the runs before a line move it. */
  function Shift(rs: seq<Replacement>, i: nat): int
  {
    if rs == [] then 0
    else (if rs[0].End() <= i then |rs[0].newLines| - rs[0].oldLen else 0) + Shift(rs[1..], i)
  }

  ghost predicate Untouched(rs: seq<Replacement>, i: nat)
  {
    forall k :: 0 <= k < |rs| ==> i < rs[k].start || rs[k].End() <= i
  }

  lemma {:induction false} NoShiftBefore(rs: seq<Replacement>, i: nat, from: nat, n: nat)
    requires InOrder(rs, from, n) && i < from
    ensures Shift(rs, i) == 0
    decreases |rs|
  {
    if rs != [] {
      NoShiftBefore(rs[1..], i, rs[0].End(), n);
    }
  }

  lemma UntouchedTail(rs: seq<Replacement>, i: nat)
    requires rs != [] && Untouched(rs, i)
    ensures Untouched(rs[1..], i) && (i < rs[0].start || rs[0].End() <= i)
  {
    assert forall k :: 0 <= k < |rs[1..]| ==> rs[1..][k] == rs[k + 1];
  }

  lemma Behind(head: seq<string>, rest: seq<string>, k: nat)
    requires k < |rest|
    ensures (head + rest)[|head| + k] == rest[k]
  {
  }

  /** A line outside every run is there afterwards, moved by exactly what the runs before
      it grew or shrank. */
  lemma {:induction false} UntouchedLineSurvives(lines: seq<string>, rs: seq<Replacement>, from: nat, i: nat)
    requires InOrder(rs, from, |lines|) && from <= i < |lines| && Untouched(rs, i)
    ensures var at := i + Shift(rs, i) - from; var after := Substitute(lines, rs, from);
      0 <= at < |after| && after[at] == lines[i]
    decreases |rs|
  {
    hide InOrder, Substitute, Untouched;
    if rs == [] {
      SubstituteNothing(lines, from);
    } else {
      SubstituteStep(lines, rs, from);
      UntouchedTail(rs, i);
      var rest := Substitute(lines, rs[1..], rs[0].End());
      var head := lines[from..rs[0].start] + rs[0].newLines;
      if i < rs[0].start {
        NoShiftBefore(rs[1..], i, rs[0].End(), |lines|);
        assert (head + rest)[i - from] == head[i - from] == lines[i];
      } else {
        UntouchedLineSurvives(lines, rs[1..], rs[0].End(), i);
        Behind(head, rest, i + Shift(rs[1..], i) - rs[0].End());
      }
    }
  }

  /** And where a run was, in its place by the same reckoning, its new lines are, whole. */
  lemma {:induction false} NewLinesAreThere(lines: seq<string>, rs: seq<Replacement>, from: nat, k: nat)
    requires InOrder(rs, from, |lines|) && k < |rs|
    ensures var at := rs[k].start + Shift(rs[..k], rs[k].start) - from; var after := Substitute(lines, rs, from);
      0 <= at <= at + |rs[k].newLines| <= |after| && after[at..at + |rs[k].newLines|] == rs[k].newLines
    decreases |rs|
  {
    hide InOrder, Substitute;
    SubstituteStep(lines, rs, from);
    var rest := Substitute(lines, rs[1..], rs[0].End());
    var head := lines[from..rs[0].start] + rs[0].newLines;
    if k == 0 {
      assert Shift(rs[..0], rs[0].start) == 0;
      assert (head + rest)[rs[0].start - from..|head|] == rs[0].newLines;
    } else {
      NewLinesAreThere(lines, rs[1..], rs[0].End(), k - 1);
      InOrderMeans(rs, from, |lines|);
      assert rs[1..][..k - 1] == rs[..k][1..];
      var at := rs[k].start + Shift(rs[1..][..k - 1], rs[k].start) - rs[0].End();
      assert (head + rest)[|head| + at..|head| + at + |rs[k].newLines|] == rest[at..at + |rs[k].newLines|];
    }
  }

  /** Nothing else is there: the lines number as many as before, and what the runs grew. */
  lemma {:induction false} NothingElseIsThere(lines: seq<string>, rs: seq<Replacement>, from: nat)
    requires InOrder(rs, from, |lines|)
    ensures |Substitute(lines, rs, from)| == |lines| - from + Shift(rs, |lines|)
    decreases |rs|
  {
    InOrderMeans(rs, from, |lines|);
    if rs != [] {
      NothingElseIsThere(lines, rs[1..], rs[0].End());
    }
  }

  // ----- the loops -----

  method ApplyReplacements(lines: seq<string>, replacements: seq<Replacement>) returns (result: seq<string>)
    ensures result == SpliceAll(lines, replacements)
    ensures InOrder(replacements, 0, |lines|) ==> result == Substitute(lines, replacements, 0)
  {
    result := lines;
    var n := |replacements|;
    assert replacements[..n] == replacements;
    while n > 0
      invariant 0 <= n <= |replacements|
      invariant SpliceAll(result, replacements[..n]) == SpliceAll(lines, replacements)
    {
      n := n - 1;
      assert replacements[..n + 1][..n] == replacements[..n];
      result := SpliceInPlace(result, replacements[n]);
    }
    assert replacements[..0] == [];
    if InOrder(replacements, 0, |lines|) {
      SplicingIsSubstitution(lines, replacements);
    }
  }

  /** One line less between the front and the back. */
  lemma RemoveOne(front: seq<string>, back: seq<string>)
    requires back != []
    ensures var all := front + back;
      all[..|front|] + all[|front| + 1..] == front + back[1..]
  {
    TakeApart(front, back);
    assert (front + back)[|front| + 1..] == back[1..];
  }

  /** One line more between them. */
  lemma InsertOne(front: seq<string>, mid: seq<string>, line: string, back: seq<string>)
    ensures var all, at := front + mid + back, |front + mid|;
      all[..at] + [line] + all[at..] == front + (mid + [line]) + back
  {
    TakeApart(front + mid, back);
    Regroup(front, mid, [line]);
  }

  /** One replacement: lines are removed one by one, then put in one by one. */
  method SpliceInPlace(lines: seq<string>, r: Replacement) returns (result: seq<string>)
    ensures result == Splice(lines, r)
  {
    var cut := Least(r.start, |lines|);
    ghost var front := lines[..cut];
    PutTogether(lines, cut);
    result := lines;
    var i := 0;
    while i < r.oldLen
      invariant 0 <= i <= r.oldLen
      invariant result == front + lines[Least(r.start + i, |lines|)..]
    {
      if r.start < |result| {
        RemoveOne(front, lines[r.start + i..]);
        result := result[..r.start] + result[r.start + 1..];
      }
      i := i + 1;
    }
    ghost var rest := lines[Least(r.End(), |lines|)..];
    NothingAdded(front);
    i := 0;
    while i < |r.newLines|
      invariant 0 <= i <= |r.newLines|
      invariant result == front + r.newLines[..i] + rest
    {
      var at := Least(r.start + i, |result|);
      InsertOne(front, r.newLines[..i], r.newLines[i], rest);
      assert r.newLines[..i + 1] == r.newLines[..i] + [r.newLines[i]];
      result := result[..at] + [r.newLines[i]] + result[at..];
      i := i + 1;
    }
    assert r.newLines[..i] == r.newLines;
  }
}
