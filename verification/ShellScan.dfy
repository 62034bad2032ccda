/** The two shell scanners of src/agents/bash-tools.exec.ts as the loops they are. */
module ShellScan {
  import opened Collections
  import opened Text
  import opened ShellQuotes

  /** The automaton state that the three flags of a scanner stand for. */
  function Flags(inSingle: bool, inDouble: bool, escaped: bool): State
  {
    State(if inSingle then Single else if inDouble then Double else Normal, escaped)
  }

  /** The text outside quotes, or `None` when a quote or an escape is left open. */
  method ExtractUnquotedShellText(raw: string) returns (text: Option<string>)
    ensures text == Extract(raw)
    ensures text.Some? <==> Balanced(raw)
  {
    var out := "";
    var inSingle, inDouble, escaped := false, false, false;
    var i := 0;
    while i < |raw|
      invariant 0 <= i <= |raw| && !(inSingle && inDouble)
      invariant Run(START, raw) == Run(Flags(inSingle, inDouble, escaped), raw[i..])
      invariant Unquoted(START, raw) == out + Unquoted(Flags(inSingle, inDouble, escaped), raw[i..])
    {
      hide Run, Unquoted;
      var ch := raw[i];
      ghost var st, before, rest := Flags(inSingle, inDouble, escaped), out, raw[i + 1..];
      Head(st, raw[i..]);
      assert raw[i..][1..] == rest;
      if escaped {
        if !inSingle && !inDouble {
          out := out + ['\\', ch];
        }
        escaped := false;
      } else if !inSingle && ch == '\\' {
        escaped := true;
      } else if inSingle {
        if ch == '\'' {
          inSingle := false;
        }
      } else if inDouble {
        // A backslash does not get here, so only the closing quote matters.
        if ch == '"' {
          inDouble := false;
        }
      } else if ch == '\'' {
        inSingle := true;
      } else if ch == '"' {
        inDouble := true;
      } else {
        out := out + [ch];
      }
      assert Flags(inSingle, inDouble, escaped) == Step(st, ch);
      assert out == before + Unquote(st, ch);
      Regroup(before, Unquote(st, ch), Unquoted(Step(st, ch), rest));
      i := i + 1;
    }
    AtEnd(Flags(inSingle, inDouble, escaped), raw[i..]);
    assert out + "" == out;
    if escaped || inSingle || inDouble {
      return None;
    }
    return Some(out);
  }

  lemma Head(st: State, rest: string)
    requires rest != ""
    ensures Run(st, rest) == Run(Step(st, rest[0]), rest[1..])
    ensures Unquoted(st, rest) == Unquote(st, rest[0]) + Unquoted(Step(st, rest[0]), rest[1..])
  {
  }

  lemma AtEnd(st: State, rest: string)
    requires rest == ""
    ensures Run(st, rest) == st && Unquoted(st, rest) == ""
  {
  }

  /** Splits at newlines, `;`, `&&`, `||` and, when asked to, `|`, outside quotes. */
  method SplitShellSegmentsOutsideQuotes(rawText: string, splitPipes: bool) returns (segments: seq<string>)
    ensures segments == Segments(rawText, splitPipes)
  {
    hide Blank, NonBlank, Cut, Segments, OperatorLength;
    segments := [];
    var buf := "";
    var inSingle, inDouble, escaped := false, false, false;
    var i := 0;
    SegmentsOfCut(rawText, splitPipes);
    while i < |rawText|
      invariant 0 <= i <= |rawText| && !(inSingle && inDouble)
      invariant Segments(rawText, splitPipes) ==
                segments + NonBlank(Cut(Flags(inSingle, inDouble, escaped), buf, rawText[i..], splitPipes).pieces)
    {
      var ch := rawText[i];
      ghost var rest := rawText[i..];
      ghost var st := Flags(inSingle, inDouble, escaped);
      assert rest[0] == ch && rest[1..] == rawText[i + 1..];
      var next := if i + 1 < |rawText| then Some(rawText[i + 1]) else None;
      ghost var n := if st == START then OperatorLength(rest, splitPipes) else 0;
      ghost var before := buf;
      CutHead(st, buf, rest, splitPipes);
      OperatorHead(rest, splitPipes);
      assert rest[n..] == rawText[i + n..];
      if escaped {
        buf := buf + [ch];
        escaped := false;
      } else if !inSingle && ch == '\\' {
        buf := buf + [ch];
        escaped := true;
      } else if inSingle {
        buf := buf + [ch];
        if ch == '\'' {
          inSingle := false;
        }
      } else if inDouble {
        buf := buf + [ch];
        if ch == '"' {
          inDouble := false;
        }
      } else if ch == '\'' {
        inSingle := true;
        buf := buf + [ch];
      } else if ch == '"' {
        inDouble := true;
        buf := buf + [ch];
      } else if ch == '\n' || ch == '\r' {
        segments, buf := PushSegment(segments, buf, rest, n, splitPipes);
      } else if ch == ';' {
        segments, buf := PushSegment(segments, buf, rest, n, splitPipes);
      } else if ch == '&' && next == Some('&') {
        segments, buf := PushSegment(segments, buf, rest, n, splitPipes);
        i := i + 1;
      } else if ch == '|' && next == Some('|') {
        segments, buf := PushSegment(segments, buf, rest, n, splitPipes);
        i := i + 1;
      } else if splitPipes && ch == '|' {
        segments, buf := PushSegment(segments, buf, rest, n, splitPipes);
      } else {
        buf := buf + [ch];
      }
      assert n == 0 ==> Flags(inSingle, inDouble, escaped) == Step(st, ch) && buf == before + [ch];
      i := i + 1;
    }
    LastPiece(Flags(inSingle, inDouble, escaped), buf, splitPipes);
    assert rawText[i..] == "";
    if !Blank(buf) {
      segments := segments + [buf];
    }
  }

  /** Ends a segment at the operator that `rest` begins with. */
  method PushSegment(segments: seq<string>, buf: string, ghost rest: string, ghost n: nat, ghost splitPipes: bool)
    returns (more: seq<string>, empty: string)
    requires n == OperatorLength(rest, splitPipes) > 0
    ensures empty == ""
    ensures segments + NonBlank(Cut(START, buf, rest, splitPipes).pieces)
         == more + NonBlank(Cut(START, empty, rest[n..], splitPipes).pieces)
  {
    more := if Blank(buf) then segments else segments + [buf];
    empty := "";
    ghost var behind := Cut(START, "", rest[n..], splitPipes).pieces;
    assert Cut(START, buf, rest, splitPipes).pieces == [buf] + behind;
    NonBlankFirst(buf, behind);
    if !Blank(buf) {
      Regroup(segments, [buf], NonBlank(behind));
    }
  }

  lemma SegmentsOfCut(raw: string, splitPipes: bool)
    ensures Segments(raw, splitPipes) == [] + NonBlank(Cut(START, "", raw[0..], splitPipes).pieces)
  {
    assert raw[0..] == raw;
  }

  lemma LastPiece(st: State, buf: string, splitPipes: bool)
    ensures NonBlank(Cut(st, buf, "", splitPipes).pieces) == if Blank(buf) then [] else [buf]
  {
    NonBlankFirst(buf, []);
    assert [buf] + [] == [buf];
  }

  lemma OperatorHead(rest: string, splitPipes: bool)
    requires rest != ""
    ensures OperatorLength(rest, splitPipes) ==
      if rest[0] in {'\n', '\r', ';'} then 1
      else if |rest| > 1 && rest[0] in {'&', '|'} && rest[1] == rest[0] then 2
      else if splitPipes && rest[0] == '|' then 1
      else 0
  {
  }

  lemma CutHead(st: State, buf: string, rest: string, splitPipes: bool)
    requires rest != ""
    ensures (if st == START then OperatorLength(rest, splitPipes) else 0) == 0 ==>
      Cut(st, buf, rest, splitPipes) == Cut(Step(st, rest[0]), buf + [rest[0]], rest[1..], splitPipes)
  {
  }

  lemma NonBlankFirst(buf: string, behind: seq<string>)
    ensures NonBlank([buf] + behind) == if Blank(buf) then NonBlank(behind) else [buf] + NonBlank(behind)
  {
    assert ([buf] + behind)[1..] == behind;
  }
}
