/** Finding a run of lines in a file, exactly or fuzzily (`seekSequence` and `linesMatch`
    in src/agents/apply-patch-update.ts). */
module LineSeek {
  import opened Collections
  import opened Text

  /** How two lines are compared, strictest first. */
  datatype Tier = Exact | EndTrimmed | BothTrimmed | Folded

  function FoldChar(c: char): char
  {
    if '\U{2010}' <= c <= '\U{2015}' || c == '\U{2212}' then '-'
    else if '\U{2018}' <= c <= '\U{201B}' then '\''
    else if '\U{201C}' <= c <= '\U{201F}' then '"'
    else if c == '\U{A0}' || '\U{2002}' <= c <= '\U{200A}' || c == '\U{202F}' || c == '\U{205F}' || c == '\U{3000}'
    then ' '
    else c
  }

  const DASHES: string := "\U{2010}\U{2011}\U{2012}\U{2013}\U{2014}\U{2015}\U{2212}"
  const SINGLE_QUOTES: string := "\U{2018}\U{2019}\U{201A}\U{201B}"
  const DOUBLE_QUOTES: string := "\U{201C}\U{201D}\U{201E}\U{201F}"
  const SPACES: string :=
    "\U{A0}\U{2002}\U{2003}\U{2004}\U{2005}\U{2006}\U{2007}\U{2008}\U{2009}\U{200A}\U{202F}\U{205F}\U{3000}"

  /** Exactly these characters are folded, and to which. */
  lemma FoldCharMeans(c: char)
    ensures FoldChar(c) == if c in DASHES then '-'
                           else if c in SINGLE_QUOTES then '\''
                           else if c in DOUBLE_QUOTES then '"'
                           else if c in SPACES then ' '
                           else c
  {
    if FoldChar(c) != c {
      Listed(c);
    }
  }

  /** Whatever is folded is in one of the lists. */
  lemma Listed(c: char)
    requires FoldChar(c) != c
    ensures c in DASHES + SINGLE_QUOTES + DOUBLE_QUOTES + SPACES
  {
    var n := c as int;
    if 0x2010 <= n <= 0x2015 {
      assert DASHES[n - 0x2010] == c;
    } else if n == 0x2212 {
      assert DASHES[6] == c;
    } else if 0x2018 <= n <= 0x201B {
      assert SINGLE_QUOTES[n - 0x2018] == c;
    } else if 0x201C <= n <= 0x201F {
      assert DOUBLE_QUOTES[n - 0x201C] == c;
    } else if 0x2002 <= n <= 0x200A {
      assert SPACES[n - 0x2001] == c;
    } else {
      assert SPACES[0] == '\U{A0}' && SPACES[10] == '\U{202F}' && SPACES[11] == '\U{205F}' && SPACES[12] == '\U{3000}';
    }
  }

  /** Dashes, quotes and spaces of all kinds become the ASCII ones. */
  function NormalizePunctuation(s: string): (r: string)
    ensures |r| == |s|
    ensures forall i :: 0 <= i < |s| ==> r[i] == FoldChar(s[i])
  {
    if s == "" then "" else [FoldChar(s[0])] + NormalizePunctuation(s[1..])
  }

  function Normalize(t: Tier, s: string): string
  {
    match t
    case Exact => s
    case EndTrimmed => TrimEnd(s)
    case BothTrimmed => Trim(s)
    case Folded => NormalizePunctuation(Trim(s))
  }

  function Rank(t: Tier): nat
  {
    match t case Exact => 0 case EndTrimmed => 1 case BothTrimmed => 2 case Folded => 3
  }

  /** The comparison `seekSequence` hands to its loops. */
  function Normalizer(t: Tier): string -> string
  {
    (s: string) => Normalize(t, s)
  }

  /** The pattern is found at index `i`, lines being compared after normalizing. */
  predicate FoundAt(lines: seq<string>, pattern: seq<string>, i: nat, normalize: string -> string)
  {
    && i + |pattern| <= |lines|
    && (forall k :: 0 <= k < |pattern| ==> normalize(lines[i + k]) == normalize(pattern[k]))
  }

  predicate MatchesAt(lines: seq<string>, pattern: seq<string>, i: nat, t: Tier)
  {
    FoundAt(lines, pattern, i, Normalizer(t))
  }

  /** Lines that are equal at some tier are equal at every looser one. */
  lemma LooserTiersMatch(lines: seq<string>, pattern: seq<string>, i: nat, t: Tier, u: Tier)
    requires MatchesAt(lines, pattern, i, t) && Rank(t) <= Rank(u)
    ensures MatchesAt(lines, pattern, i, u)
  {
    forall k | 0 <= k < |pattern|
      ensures Normalizer(u)(lines[i + k]) == Normalizer(u)(pattern[k])
    {
      assert Normalizer(t)(lines[i + k]) == Normalizer(t)(pattern[k]);
    }
  }

  method LinesMatch(lines: seq<string>, pattern: seq<string>, start: nat, normalize: string -> string) returns (r: bool)
    requires start + |pattern| <= |lines|
    ensures r == FoundAt(lines, pattern, start, normalize)
  {
    var idx := 0;
    while idx < |pattern|
      invariant 0 <= idx <= |pattern|
      invariant forall k :: 0 <= k < idx ==> normalize(lines[start + k]) == normalize(pattern[k])
    {
      if normalize(lines[start + idx]) != normalize(pattern[idx]) {
        return false;
      }
      idx := idx + 1;
    }
    return true;
  }

  /** The least index from `from` on where the pattern is found. */
  function FirstMatch(lines: seq<string>, pattern: seq<string>, from: nat, normalize: string -> string): Option<nat>
    decreases |lines| - from
  {
    if from + |pattern| > |lines| then None
    else if FoundAt(lines, pattern, from, normalize) then Some(from)
    else if from >= |lines| then None
    else FirstMatch(lines, pattern, from + 1, normalize)
  }

  lemma {:induction false} FirstMatchIsLeast(lines: seq<string>, pattern: seq<string>, from: nat,
                                             normalize: string -> string)
    ensures var r := FirstMatch(lines, pattern, from, normalize);
      && (r.Some? ==> from <= r.value && FoundAt(lines, pattern, r.value, normalize))
      && (forall j: nat :: from <= j && FoundAt(lines, pattern, j, normalize) ==> r.Some? && r.value <= j)
    decreases |lines| - from
  {
    if from + |pattern| <= |lines| && !FoundAt(lines, pattern, from, normalize) && from < |lines| {
      FirstMatchIsLeast(lines, pattern, from + 1, normalize);
    }
  }

  /** Where the search starts: at the only place left for an end-of-file pattern. */
  function SearchStart(lines: seq<string>, pattern: seq<string>, start: nat, eof: bool): nat
    requires |pattern| <= |lines|
  {
    if eof then |lines| - |pattern| else start
  }

  /** The strictest tier with a match from `from` on; the loosest if there is none. */
  function DecidingTier(lines: seq<string>, pattern: seq<string>, from: nat): Tier
  {
    if FirstMatch(lines, pattern, from, Normalizer(Exact)).Some? then Exact
    else if FirstMatch(lines, pattern, from, Normalizer(EndTrimmed)).Some? then EndTrimmed
    else if FirstMatch(lines, pattern, from, Normalizer(BothTrimmed)).Some? then BothTrimmed
    else Folded
  }

  function Seek(lines: seq<string>, pattern: seq<string>, start: nat, eof: bool): Option<nat>
  {
    if pattern == [] then Some(start)
    else if |pattern| > |lines| then None
    else
      var from := SearchStart(lines, pattern, start, eof);
      FirstMatch(lines, pattern, from, Normalizer(DecidingTier(lines, pattern, from)))
  }

  /** `i` is where the search may find a pattern. */
  predicate InWindow(lines: seq<string>, pattern: seq<string>, start: nat, eof: bool, i: nat)
  {
    i + |pattern| <= |lines| && if eof then i == |lines| - |pattern| else start <= i
  }

  /** `r` is the least index of the strictest tier, `u`, that has a match in the window. */
  ghost predicate StrictestThenFirst(lines: seq<string>, pattern: seq<string>, start: nat, eof: bool, r: nat, u: Tier)
  {
    && InWindow(lines, pattern, start, eof, r) && MatchesAt(lines, pattern, r, u)
    && (forall t: Tier, i: nat :: InWindow(lines, pattern, start, eof, i) && MatchesAt(lines, pattern, i, t) ==>
          Rank(u) < Rank(t) || (u == t && r <= i))
  }

  /** A non-empty pattern is found at the least index of the strictest tier that has a
      match in the window, and not found exactly if no index of the window matches even
      after trimming and folding. */
  lemma SeekFindsStrictestThenFirst(lines: seq<string>, pattern: seq<string>, start: nat, eof: bool)
    requires pattern != []
    ensures var r := Seek(lines, pattern, start, eof);
      && (r.Some? ==> exists u: Tier :: StrictestThenFirst(lines, pattern, start, eof, r.value, u))
      && (r.None? <==>
            forall i: nat :: InWindow(lines, pattern, start, eof, i) ==> !MatchesAt(lines, pattern, i, Folded))
  {
    if |pattern| <= |lines| {
      hide FirstMatch;
      var from := SearchStart(lines, pattern, start, eof);
      var u := DecidingTier(lines, pattern, from);
      var r := Seek(lines, pattern, start, eof);
      if r.Some? {
        FirstMatchIsLeast(lines, pattern, from, Normalizer(u));
        StrictestTierDecides(lines, pattern, start, eof, r.value, u);
        LooserTiersMatch(lines, pattern, r.value, u, Folded);
      } else {
        FirstMatchIsLeast(lines, pattern, from, Normalizer(Folded));
      }
    }
  }

  lemma StrictestTierDecides(lines: seq<string>, pattern: seq<string>, start: nat, eof: bool, r: nat, u: Tier)
    requires pattern != [] && |pattern| <= |lines| && Seek(lines, pattern, start, eof) == Some(r)
    requires u == DecidingTier(lines, pattern, SearchStart(lines, pattern, start, eof))
    ensures StrictestThenFirst(lines, pattern, start, eof, r, u)
  {
    hide FirstMatch, FoundAt, Normalizer;
    var from := SearchStart(lines, pattern, start, eof);
    forall t: Tier, i: nat | InWindow(lines, pattern, start, eof, i) && MatchesAt(lines, pattern, i, t)
      ensures Rank(u) < Rank(t) || (u == t && r <= i)
    {
      FirstMatchIsLeast(lines, pattern, from, Normalizer(t));
    }
    FirstMatchIsLeast(lines, pattern, from, Normalizer(u));
    FoundInLines(lines, pattern, r, Normalizer(u));
  }

  lemma FoundInLines(lines: seq<string>, pattern: seq<string>, i: nat, normalize: string -> string)
    requires FoundAt(lines, pattern, i, normalize)
    ensures i + |pattern| <= |lines|
  {
  }

  /** One of the four loops of `seekSequence`. */
  method SeekNormalized(lines: seq<string>, pattern: seq<string>, searchStart: nat, normalize: string -> string)
    returns (r: Option<nat>)
    requires 0 < |pattern| <= |lines| && searchStart <= |lines| - |pattern|
    ensures r == FirstMatch(lines, pattern, searchStart, normalize)
  {
    FirstMatchIsLeast(lines, pattern, searchStart, normalize);
    var maxStart := |lines| - |pattern|;
    var i := searchStart;
    while i <= maxStart
      invariant searchStart <= i <= maxStart + 1
      invariant forall j: nat :: searchStart <= j < i ==> !FoundAt(lines, pattern, j, normalize)
    {
      var found := LinesMatch(lines, pattern, i, normalize);
      if found {
        return Some(i);
      }
      i := i + 1;
    }
    return None;
  }

  method SeekSequence(lines: seq<string>, pattern: seq<string>, start: nat, eof: bool) returns (r: Option<nat>)
    ensures r == Seek(lines, pattern, start, eof)
  {
    if |pattern| == 0 {
      return Some(start);
    }
    if |pattern| > |lines| {
      return None;
    }
    var maxStart := |lines| - |pattern|;
    var searchStart := if eof then maxStart else start;
    if searchStart > maxStart {
      return None;
    }
    r := SeekNormalized(lines, pattern, searchStart, Normalizer(Exact));
    if r.Some? {
      return;
    }
    r := SeekNormalized(lines, pattern, searchStart, Normalizer(EndTrimmed));
    if r.Some? {
      return;
    }
    r := SeekNormalized(lines, pattern, searchStart, Normalizer(BothTrimmed));
    if r.Some? {
      return;
    }
    r := SeekNormalized(lines, pattern, searchStart, Normalizer(Folded));
  }
}
