/** Strings and what JavaScript does with them. A character is a Unicode scalar value, so
    lengths and positions are JavaScript's for texts without surrogate pairs. */
module Text {
  import opened Collections

  /** What `trim`, `trimEnd` and `\s` take as white space. */
  predicate IsSpace(c: char)
  {
    c == ' ' || c == '\t' || c == '\n' || c == '\r' || c == '\U{0B}' || c == '\U{0C}' || c == '\U{A0}'
    || c == '\U{1680}' || '\U{2000}' <= c <= '\U{200A}' || c == '\U{2028}' || c == '\U{2029}'
    || c == '\U{202F}' || c == '\U{205F}' || c == '\U{3000}' || c == '\U{FEFF}'
  }

  function TrimEnd(s: string): (r: string)
    ensures |r| <= |s|
  {
    if s == "" || !IsSpace(s[|s| - 1]) then s else TrimEnd(s[..|s| - 1])
  }

  function TrimStart(s: string): (r: string)
    ensures |r| <= |s|
  {
    if s == "" || !IsSpace(s[0]) then s else TrimStart(s[1..])
  }

  function Trim(s: string): (r: string)
    ensures |r| <= |s|
  {
    TrimStart(TrimEnd(s))
  }

  /** `TrimEnd` is the prefix up to the last character that is not white space. */
  lemma {:induction false} TrimEndIsPrefix(s: string)
    ensures var r := TrimEnd(s);
      && r <= s && (r != "" ==> !IsSpace(r[|r| - 1]))
      && (forall i :: |r| <= i < |s| ==> IsSpace(s[i]))
  {
    if s != "" && IsSpace(s[|s| - 1]) {
      TrimEndIsPrefix(s[..|s| - 1]);
    }
  }

  lemma {:induction false} TrimStartIsSuffix(s: string)
    ensures var r := TrimStart(s);
      && s[|s| - |r|..] == r && (r != "" ==> !IsSpace(r[0]))
      && (forall i :: 0 <= i < |s| - |r| ==> IsSpace(s[i]))
  {
    if s != "" && IsSpace(s[0]) {
      TrimStartIsSuffix(s[1..]);
    }
  }

  /** Trimming cuts a slice out of a text, with nothing blank at either end. */
  lemma TrimIsSlice(s: string) returns (from: nat, to: nat)
    ensures from <= to <= |s| && Trim(s) == s[from..to]
    ensures from < to ==> !IsSpace(s[from]) && !IsSpace(s[to - 1])
  {
    hide TrimStart, TrimEnd, IsSpace;
    TrimEndIsPrefix(s);
    TrimStartIsSuffix(TrimEnd(s));
    from, to := |TrimEnd(s)| - |Trim(s)|, |TrimEnd(s)|;
  }

  lemma TrimFixed(s: string)
    requires s == "" || (!IsSpace(s[0]) && !IsSpace(s[|s| - 1]))
    ensures Trim(s) == s
  {
  }

  /** Trimming prefixes of one another gives prefixes of one another. */
  lemma TrimEndMonotone(a: string, b: string)
    requires a <= b
    ensures TrimEnd(a) <= TrimEnd(b)
  {
    var t := TrimEnd(a);
    TrimEndIsPrefix(a);
    TrimEndIsPrefix(b);
    if t != "" {
      assert !IsSpace(b[|t| - 1]) by {
        assert b[|t| - 1] == t[|t| - 1];
      }
      assert |TrimEnd(b)| >= |t|;
    }
  }

  /** `lines.join(separator)`. */
  function Join(lines: seq<string>, separator: string): string
  {
    if lines == [] then ""
    else if |lines| == 1 then lines[0]
    else lines[0] + separator + Join(lines[1..], separator)
  }

  /** `s.split("\n")`: at least one piece, none with a newline in it. */
  function SplitLines(s: string): (lines: seq<string>)
    ensures lines != []
  {
    if s == "" then [""]
    else
      var rest := SplitLines(s[1..]);
      if s[0] == '\n' then [""] + rest else [[s[0]] + rest[0]] + rest[1..]
  }

  predicate OneLine(s: string) { '\n' !in s }

  lemma {:induction false} SplitGivesLines(s: string)
    ensures forall i :: 0 <= i < |SplitLines(s)| ==> OneLine(SplitLines(s)[i])
  {
    if s != "" {
      SplitGivesLines(s[1..]);
    }
  }

  lemma JoinCons(line: string, lines: seq<string>)
    requires lines != []
    ensures Join([line] + lines, "\n") == line + "\n" + Join(lines, "\n")
  {
    assert ([line] + lines)[1..] == lines;
  }

  lemma {:induction false} JoinOfSplit(s: string)
    ensures Join(SplitLines(s), "\n") == s
  {
    if s != "" {
      var rest := SplitLines(s[1..]);
      JoinOfSplit(s[1..]);
      if s[0] == '\n' {
        JoinCons("", rest);
      } else if |rest| == 1 {
        assert [[s[0]] + rest[0]] + rest[1..] == [[s[0]] + rest[0]];
      } else {
        JoinCons([s[0]] + rest[0], rest[1..]);
        assert rest == [rest[0]] + rest[1..];
        JoinCons(rest[0], rest[1..]);
      }
    }
  }

  /** A line in front of a text is the first piece of the whole. */
  lemma {:induction false} SplitFirstLine(line: string, rest: string)
    requires OneLine(line)
    ensures SplitLines(line + "\n" + rest) == [line] + SplitLines(rest)
  {
    if line == "" {
      assert line + "\n" + rest == "\n" + rest && ("\n" + rest)[1..] == rest;
    } else {
      var whole := line + "\n" + rest;
      assert whole[1..] == line[1..] + "\n" + rest;
      SplitFirstLine(line[1..], rest);
      assert [whole[0]] + line[1..] == line;
    }
  }

  lemma {:induction false} SplitOneLine(line: string)
    requires OneLine(line)
    ensures SplitLines(line) == [line]
  {
    if line != "" {
      SplitOneLine(line[1..]);
      assert [line[0]] + line[1..] == line;
      assert [line[1..]][1..] == [];
    }
  }

  lemma {:induction false} SplitOfJoin(lines: seq<string>)
    requires lines != [] && forall i :: 0 <= i < |lines| ==> OneLine(lines[i])
    ensures SplitLines(Join(lines, "\n")) == lines
  {
    if |lines| == 1 {
      SplitOneLine(lines[0]);
    } else {
      SplitOfJoin(lines[1..]);
      SplitFirstLine(lines[0], Join(lines[1..], "\n"));
      assert lines == [lines[0]] + lines[1..];
    }
  }

  /** The last piece of a split is blank exactly for an empty text or a final newline. */
  lemma {:induction false} SplitEndsBlank(s: string)
    ensures SplitLines(s)[|SplitLines(s)| - 1] == "" <==> s == "" || s[|s| - 1] == '\n'
  {
    if s != "" {
      SplitEndsBlank(s[1..]);
    }
  }

  predicate StartsWith(s: string, prefix: string) { prefix <= s }

  predicate EndsWith(s: string, suffix: string)
  {
    |suffix| <= |s| && s[|s| - |suffix|..] == suffix
  }

  /** The last `n` characters, or all of a shorter string. */
  function LastN(s: string, n: nat): (r: string)
    ensures |r| == if |s| <= n then |s| else n
  {
    if |s| <= n then s else s[|s| - n..]
  }

  lemma LastNCut(front: string, back: string, n: nat)
    requires |back| >= n
    ensures LastN(front + back, n) == LastN(back, n)
  {
    assert (front + back)[|front + back| - n..] == back[|back| - n..];
  }

  lemma LastNOfAppend(s: string, t: string, n: nat)
    ensures LastN(LastN(s, n) + t, n) == LastN(s + t, n)
  {
    if |s| > n {
      LastNOfLongAppend(s, t, n);
    }
  }

  lemma LastNOfLongAppend(s: string, t: string, n: nat)
    requires |s| > n
    ensures LastN(LastN(s, n) + t, n) == LastN(s + t, n)
  {
    var k := |s| - n;
    LastNCut(s[..k], s[k..] + t, n);
    PutTogether(s, k);
    Regroup(s[..k], s[k..], t);
  }

  const DIGITS: string := "0123456789"

  /** A number as a string of digits. */
  function Decimal(n: nat): (r: string)
    ensures r != ""
  {
    if n < 10 then [DIGITS[n]] else Decimal(n / 10) + [DIGITS[n % 10]]
  }

  lemma DigitsDiffer(a: nat, b: nat)
    requires a < 10 && b < 10 && DIGITS[a] == DIGITS[b]
    ensures a == b
  {
  }

  lemma {:induction false} DecimalInjective(a: nat, b: nat)
    requires Decimal(a) == Decimal(b)
    ensures a == b
  {
    assert Decimal(a)[|Decimal(a)| - 1] == DIGITS[a % 10];
    assert Decimal(b)[|Decimal(b)| - 1] == DIGITS[b % 10];
    DigitsDiffer(a % 10, b % 10);
    if a >= 10 && b >= 10 {
      assert Decimal(a)[..|Decimal(a)| - 1] == Decimal(a / 10);
      assert Decimal(b)[..|Decimal(b)| - 1] == Decimal(b / 10);
      DecimalInjective(a / 10, b / 10);
    }
  }
}
