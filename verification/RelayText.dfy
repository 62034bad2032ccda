/** The texts of the relay in src/agents/acp-spawn-parent-stream.ts: compact snippets and
    the label they carry. */
module RelayText {
  import opened Text

  const SNIPPET_MAX: nat := 220
  const BUFFER_MAX: nat := 4000
  const LABEL_MAX: nat := 40

  /** `value.replace(/\s+/g, " ")`. */
  function Squeeze(s: string): (r: string)
    ensures |r| <= |s|
    decreases |s|
  {
    if s == "" then ""
    else if IsSpace(s[0]) then " " + Squeeze(TrimStart(s[1..]))
    else [s[0]] + Squeeze(s[1..])
  }

  function CompactWhitespace(s: string): (r: string)
    ensures |r| <= |s|
  {
    Trim(Squeeze(s))
  }

  function Truncate(s: string, max: nat): (r: string)
    ensures |r| <= max
    ensures s != "" && max > 1 ==> r != "" && r[0] == s[0]
    ensures |s| <= max ==> r == s
    ensures |s| > max > 1 ==> |r| == max && r[max - 1] == '\U{2026}' && r[..max - 1] <= s
    ensures |s| > max && max <= 1 ==> |r| == max && r <= s
  {
    if |s| <= max then s
    else if max <= 1 then s[..max]
    else s[..max - 1] + "\U{2026}"
  }

  /** Every white space in `s` is a single blank between other characters or at an end. */
  predicate SingleSpaced(s: string)
  {
    forall i :: 0 <= i < |s| && IsSpace(s[i]) ==> s[i] == ' ' && (i + 1 < |s| ==> !IsSpace(s[i + 1]))
  }

  lemma {:induction false} SqueezeIsSingleSpaced(s: string)
    ensures SingleSpaced(Squeeze(s))
    ensures Squeeze(s) != "" && !IsSpace(s[0]) ==> !IsSpace(Squeeze(s)[0])
    decreases |s|
  {
    if s != "" {
      var rest := if IsSpace(s[0]) then TrimStart(s[1..]) else s[1..];
      TrimStartIsSuffix(s[1..]);
      SqueezeIsSingleSpaced(rest);
      assert rest != "" ==> Squeeze(rest) != "";
      SingleSpacedCons(if IsSpace(s[0]) then ' ' else s[0], Squeeze(rest));
    }
  }

  lemma SingleSpacedCons(c: char, s: string)
    requires SingleSpaced(s)
    requires IsSpace(c) ==> c == ' ' && (s != "" ==> !IsSpace(s[0]))
    ensures SingleSpaced([c] + s)
  {
    var all := [c] + s;
    forall i | 0 <= i < |all| && IsSpace(all[i])
      ensures all[i] == ' ' && (i + 1 < |all| ==> !IsSpace(all[i + 1]))
    {
      if i > 0 {
        assert all[i] == s[i - 1] && (i + 1 < |all| ==> all[i + 1] == s[i]);
      }
    }
  }

  /** The characters of `s` that are not white space. */
  function Visible(s: string): string
  {
    if s == "" then "" else (if IsSpace(s[0]) then "" else [s[0]]) + Visible(s[1..])
  }

  lemma {:induction false} VisibleAppend(a: string, b: string)
    ensures Visible(a + b) == Visible(a) + Visible(b)
  {
    if a == "" {
      assert a + b == b;
    } else {
      assert (a + b)[1..] == a[1..] + b;
      VisibleAppend(a[1..], b);
    }
  }

  lemma {:induction false} SpacesAreInvisible(s: string)
    requires forall i :: 0 <= i < |s| ==> IsSpace(s[i])
    ensures Visible(s) == ""
  {
    if s != "" {
      SpacesAreInvisible(s[1..]);
    }
  }

  /** Spaces around a text do not show. */
  lemma SpacesAround(front: string, s: string, back: string)
    requires forall i :: 0 <= i < |front| ==> IsSpace(front[i])
    requires forall i :: 0 <= i < |back| ==> IsSpace(back[i])
    ensures Visible(front + s + back) == Visible(s)
  {
    hide Visible;
    VisibleAppend(front, s);
    VisibleAppend(front + s, back);
    SpacesAreInvisible(front);
    SpacesAreInvisible(back);
    assert "" + Visible(s) + "" == Visible(s);
  }

  lemma VisibleOfTrim(s: string)
    ensures Visible(TrimStart(s)) == Visible(s) && Visible(TrimEnd(s)) == Visible(s)
  {
    hide TrimStart, TrimEnd, Visible;
    TrimStartIsSuffix(s);
    var r, t := TrimStart(s), TrimEnd(s);
    SpacesAround(s[..|s| - |r|], r, "");
    assert s[..|s| - |r|] + r + "" == s;
    TrimEndIsPrefix(s);
    SpacesAround("", t, s[|t|..]);
    assert "" + t + s[|t|..] == s;
  }

  lemma {:induction false} VisibleOfSqueeze(s: string)
    ensures Visible(Squeeze(s)) == Visible(s)
    decreases |s|
  {
    if s != "" {
      var rest := if IsSpace(s[0]) then TrimStart(s[1..]) else s[1..];
      VisibleOfTrim(s[1..]);
      VisibleOfSqueeze(rest);
      var c := if IsSpace(s[0]) then ' ' else s[0];
      assert Squeeze(s) == [c] + Squeeze(rest) && ([c] + Squeeze(rest))[1..] == Squeeze(rest);
    }
  }

  lemma SliceIsSingleSpaced(s: string, from: nat, to: nat)
    requires from <= to <= |s| && SingleSpaced(s)
    ensures SingleSpaced(s[from..to])
  {
    hide IsSpace;
    var t := s[from..to];
    forall i | 0 <= i < |t| && IsSpace(t[i])
      ensures t[i] == ' ' && (i + 1 < |t| ==> !IsSpace(t[i + 1]))
    {
      assert t[i] == s[from + i];
    }
  }

  /** Compacting loses nothing but white space, and leaves single blanks inside. */
  lemma CompactIsRight(s: string)
    ensures var r := CompactWhitespace(s);
      && Visible(r) == Visible(s) && SingleSpaced(r)
      && (r != "" ==> !IsSpace(r[0]) && !IsSpace(r[|r| - 1]))
  {
    hide Squeeze, Visible, TrimStart, TrimEnd, SingleSpaced, IsSpace;
    var q := Squeeze(s);
    SqueezeIsSingleSpaced(s);
    VisibleOfSqueeze(s);
    VisibleOfTrim(q);
    VisibleOfTrim(TrimEnd(q));
    var from, to := TrimIsSlice(q);
    SliceIsSingleSpaced(q, from, to);
  }

  /** The name a relay gives its child in every notice. */
  function RelayLabel(agentId: string): (name: string)
    ensures name != "" && |name| <= LABEL_MAX && !IsSpace(name[0])
  {
    var short := Truncate(CompactWhitespace(agentId), LABEL_MAX);
    CompactIsRight(agentId);
    if short != "" then short else "ACP child"
  }

  /** `Math.round(ms / 1000)`. */
  function Seconds(ms: nat): (s: nat)
    ensures ms - 500 < 1000 * s <= ms + 500
  {
    (ms + 500) / 1000
  }
}
