/** The quote automaton of the two shell scanners in src/agents/bash-tools.exec.ts, and
    what they compute: the unquoted text, and the segments between operators. */
module ShellQuotes {
  import opened Collections
  import opened Text

  datatype Quote = Normal | Single | Double

  datatype State = State(quote: Quote, escaped: bool)

  const START := State(Normal, false)

  /** Nothing is special in single quotes, and a backslash takes the next character everywhere else. */
  function Step(st: State, ch: char): State
  {
    if st.escaped then State(st.quote, false)
    else match st.quote
      case Single => if ch == '\'' then START else st
      case Double => if ch == '\\' then State(Double, true) else if ch == '"' then START else st
      case Normal =>
        if ch == '\\' then State(Normal, true)
        else if ch == '\'' then State(Single, false)
        else if ch == '"' then State(Double, false)
        else st
  }

  function Run(st: State, s: string): State
    decreases |s|
  {
    if s == "" then st else Run(Step(st, s[0]), s[1..])
  }

  /** Every quote is closed and no escape is left open. */
  predicate Balanced(s: string) { Run(START, s) == START }

  lemma {:induction false} RunAppend(st: State, a: string, b: string)
    ensures Run(st, a + b) == Run(Run(st, a), b)
    decreases |a|
  {
    if a == "" {
      assert a + b == b;
    } else {
      assert (a + b)[1..] == a[1..] + b;
      RunAppend(Step(st, a[0]), a[1..], b);
    }
  }

  // ----- the unquoted text -----

  /** What one character adds to the unquoted text; an escape outside quotes keeps its backslash. */
  function Unquote(st: State, ch: char): string
  {
    if st.quote != Normal then ""
    else if st.escaped then ['\\', ch]
    else if ch == '\\' || ch == '\'' || ch == '"' then ""
    else [ch]
  }

  function Unquoted(st: State, s: string): string
    decreases |s|
  {
    if s == "" then "" else Unquote(st, s[0]) + Unquoted(Step(st, s[0]), s[1..])
  }

  /** The unquoted text of a balanced command. */
  function Extract(s: string): Option<string>
  {
    if Balanced(s) then Some(Unquoted(START, s)) else None
  }

  lemma {:induction false} UnquotedAppend(st: State, a: string, b: string)
    ensures Unquoted(st, a + b) == Unquoted(st, a) + Unquoted(Run(st, a), b)
    decreases |a|
  {
    if a == "" {
      assert a + b == b;
    } else {
      assert (a + b)[1..] == a[1..] + b;
      UnquotedAppend(Step(st, a[0]), a[1..], b);
    }
  }

  lemma OneChar(st: State, a: char)
    ensures Run(st, [a]) == Step(st, a) && Unquoted(st, [a]) == Unquote(st, a)
  {
    assert [a][1..] == "";
  }

  lemma TwoChars(st: State, a: char, b: char)
    ensures Run(st, [a, b]) == Step(Step(st, a), b)
    ensures Unquoted(st, [a, b]) == Unquote(st, a) + Unquote(Step(st, a), b)
  {
    assert [a, b][1..] == [b];
    OneChar(Step(st, a), b);
  }

  lemma UnquoteIsPlain(st: State, ch: char)
    ensures var u := Unquote(st, ch); Run(START, u) == START && Unquoted(START, u) == u
  {
    var u := Unquote(st, ch);
    TwoChars(START, '\\', ch);
    OneChar(START, ch);
  }

  lemma {:induction false} UnquotedIsPlain(st: State, s: string)
    ensures var u := Unquoted(st, s); Run(START, u) == START && Unquoted(START, u) == u
    decreases |s|
  {
    if s != "" {
      var first, more := Unquote(st, s[0]), Unquoted(Step(st, s[0]), s[1..]);
      UnquoteIsPlain(st, s[0]);
      UnquotedIsPlain(Step(st, s[0]), s[1..]);
      RunAppend(START, first, more);
      UnquotedAppend(START, first, more);
    }
  }

  /** Nothing of a text is kept as long as it stays in quotes. */
  lemma {:induction false} QuotedIsDropped(st: State, s: string)
    requires forall i :: 0 <= i < |s| ==> Run(st, s[..i]).quote != Normal
    ensures Unquoted(st, s) == ""
    decreases |s|
  {
    if s != "" {
      assert s[..0] == "";
      forall i | 0 <= i < |s[1..]|
        ensures Run(Step(st, s[0]), s[1..][..i]).quote != Normal
      {
        assert s[..i + 1][1..] == s[1..][..i];
      }
      QuotedIsDropped(Step(st, s[0]), s[1..]);
    }
  }

  /** A text in quotes, without such a quote or a backslash in it, is dropped whole, with its
      quotes, and what follows is read as if it had not been there. */
  lemma QuotedText(quote: char, inner: string, rest: string)
    requires quote == '\'' || quote == '"'
    requires forall i :: 0 <= i < |inner| ==> inner[i] != quote && inner[i] != '\\'
    ensures Unquoted(START, [quote] + inner + [quote] + rest) == Unquoted(START, rest)
    ensures Run(START, [quote] + inner + [quote] + rest) == Run(START, rest)
  {
    var q := Step(START, quote);
    StaysQuoted(q, quote, inner);
    QuotedIsDropped(q, inner);
    OneChar(START, quote);
    OneChar(q, quote);
    RunAppend(START, [quote], inner);
    UnquotedAppend(START, [quote], inner);
    RunAppend(START, [quote] + inner, [quote]);
    UnquotedAppend(START, [quote] + inner, [quote]);
    RunAppend(START, [quote] + inner + [quote], rest);
    UnquotedAppend(START, [quote] + inner + [quote], rest);
  }

  lemma {:induction false} StaysQuoted(q: State, quote: char, inner: string)
    requires (quote == '\'' && q == State(Single, false)) || (quote == '"' && q == State(Double, false))
    requires forall i :: 0 <= i < |inner| ==> inner[i] != quote && inner[i] != '\\'
    ensures Run(q, inner) == q && forall i :: 0 <= i < |inner| ==> Run(q, inner[..i]) == q
  {
    if inner != "" {
      StaysQuoted(q, quote, inner[1..]);
      forall i | 0 <= i < |inner|
        ensures Run(q, inner[..i]) == q
      {
        if i > 0 {
          assert inner[..i][1..] == inner[1..][..i - 1];
        }
      }
    }
  }

  /** Text without quotes and backslashes is kept as it is. */
  lemma {:induction false} PlainText(s: string)
    requires forall i :: 0 <= i < |s| ==> s[i] != '\'' && s[i] != '"' && s[i] != '\\'
    ensures Unquoted(START, s) == s && Run(START, s) == START
  {
    if s != "" {
      PlainText(s[1..]);
      assert [s[0]] + s[1..] == s;
    }
  }

  /** Outside quotes a backslash keeps whatever it escapes, and itself. */
  lemma EscapedText(ch: char, rest: string)
    ensures Unquoted(START, ['\\', ch] + rest) == ['\\', ch] + Unquoted(START, rest)
    ensures Run(START, ['\\', ch] + rest) == Run(START, rest)
  {
    TwoChars(START, '\\', ch);
    RunAppend(START, ['\\', ch], rest);
    UnquotedAppend(START, ['\\', ch], rest);
  }

  /** In double quotes a backslash hides whatever it escapes, a double quote too. */
  lemma EscapedInQuotes(ch: char, rest: string)
    ensures Unquoted(State(Double, false), ['\\', ch] + rest) == Unquoted(State(Double, false), rest)
    ensures Run(State(Double, false), ['\\', ch] + rest) == Run(State(Double, false), rest)
  {
    TwoChars(State(Double, false), '\\', ch);
    RunAppend(State(Double, false), ['\\', ch], rest);
    UnquotedAppend(State(Double, false), ['\\', ch], rest);
  }

  /** In single quotes a backslash is nothing special. */
  lemma BackslashInSingleQuotes(rest: string)
    ensures Run(State(Single, false), "\\" + rest) == Run(State(Single, false), rest)
  {
    OneChar(State(Single, false), '\\');
    RunAppend(State(Single, false), "\\", rest);
  }

  /** Extracting again changes nothing: what quotes are left in the extracted text are behind
      a backslash. */
  lemma ExtractIsIdempotent(s: string)
    requires Extract(s).Some?
    ensures Extract(Extract(s).value) == Extract(s)
  {
    UnquotedIsPlain(START, s);
  }

  // ----- the segments -----

  /** The length of the operator that `rest` begins with; 0 when there is none. */
  function OperatorLength(rest: string, splitPipes: bool): (n: nat)
    ensures n <= |rest| && n <= 2
  {
    if rest == "" then 0
    else if rest[0] == '\n' || rest[0] == '\r' || rest[0] == ';' then 1
    else if |rest| > 1 && rest[0] == '&' && rest[1] == '&' then 2
    else if |rest| > 1 && rest[0] == '|' && rest[1] == '|' then 2
    else if splitPipes && rest[0] == '|' then 1
    else 0
  }

  predicate IsOperator(op: string, splitPipes: bool)
  {
    op == "\n" || op == "\r" || op == ";" || op == "&&" || op == "||" || (splitPipes && op == "|")
  }

  /** The pieces of a command and the operators between them. */
  datatype Pieces = Pieces(pieces: seq<string>, operators: seq<string>)

  /** Cuts at every operator met outside quotes; `buf` is the piece being read. */
  function Cut(st: State, buf: string, rest: string, splitPipes: bool): (r: Pieces)
    ensures |r.pieces| == |r.operators| + 1
    decreases |rest|
  {
    if rest == "" then Pieces([buf], [])
    else
      var n := if st == START then OperatorLength(rest, splitPipes) else 0;
      if n == 0 then Cut(Step(st, rest[0]), buf + [rest[0]], rest[1..], splitPipes)
      else
        var more := Cut(START, "", rest[n..], splitPipes);
        Pieces([buf] + more.pieces, [rest[..n]] + more.operators)
  }

  function CutCommand(raw: string, splitPipes: bool): (r: Pieces)
    ensures |r.pieces| == |r.operators| + 1
  {
    Cut(START, "", raw, splitPipes)
  }

  predicate Blank(s: string) { Trim(s) == "" }

  function NonBlank(pieces: seq<string>): seq<string>
  {
    if pieces == [] then []
    else (if Blank(pieces[0]) then [] else [pieces[0]]) + NonBlank(pieces[1..])
  }

  /** The segments of a command: its pieces, without those of white space only. */
  function Segments(raw: string, splitPipes: bool): seq<string>
  {
    NonBlank(CutCommand(raw, splitPipes).pieces)
  }

  /** The pieces and operators put together again. */
  function Interleave(pieces: seq<string>, operators: seq<string>): string
    requires |pieces| == |operators| + 1
  {
    if operators == [] then pieces[0]
    else pieces[0] + operators[0] + Interleave(pieces[1..], operators[1..])
  }

  // ----- what the cuts are -----

  lemma OnePiece(piece: string)
    ensures Interleave([piece], []) == piece
  {
  }

  lemma InterleaveCons(piece: string, operator: string, more: Pieces)
    requires |more.pieces| == |more.operators| + 1
    ensures Interleave([piece] + more.pieces, [operator] + more.operators)
         == piece + operator + Interleave(more.pieces, more.operators)
  {
    var pieces, operators := [piece] + more.pieces, [operator] + more.operators;
    assert pieces[1..] == more.pieces && operators[1..] == more.operators;
  }

  /** Nothing is lost. */
  lemma {:induction false} CutKeepsText(st: State, buf: string, rest: string, splitPipes: bool)
    ensures var c := Cut(st, buf, rest, splitPipes); Interleave(c.pieces, c.operators) == buf + rest
    decreases |rest|
  {
    hide Step, OperatorLength, Interleave;
    if rest == "" {
      NothingAdded(buf);
      OnePiece(buf);
    } else {
      var n := if st == START then OperatorLength(rest, splitPipes) else 0;
      if n == 0 {
        CutKeepsText(Step(st, rest[0]), buf + [rest[0]], rest[1..], splitPipes);
        Regroup(buf, [rest[0]], rest[1..]);
      } else {
        var more := Cut(START, "", rest[n..], splitPipes);
        CutKeepsText(START, "", rest[n..], splitPipes);
        NothingAdded(rest[n..]);
        InterleaveCons(buf, rest[..n], more);
        PutTogether(rest, n);
        Regroup(buf, rest[..n], rest[n..]);
      }
    }
  }

  lemma OperatorIsPlain(rest: string, splitPipes: bool)
    requires OperatorLength(rest, splitPipes) > 0
    ensures var op := rest[..OperatorLength(rest, splitPipes)];
      && IsOperator(op, splitPipes) && Run(START, op) == START && Unquoted(START, op) == op
  {
    var op := rest[..OperatorLength(rest, splitPipes)];
    OneChar(START, op[0]);
    if |op| == 2 {
      assert op == [op[0], op[1]];
      TwoChars(START, op[0], op[1]);
    } else {
      assert op == [op[0]];
    }
  }

  /** Every operator cut at is one, every piece in front of one is balanced, and the
      last piece ends in the state `end`. */
  ghost predicate CutsAreOutside(c: Pieces, splitPipes: bool, end: State)
  {
    && |c.pieces| == |c.operators| + 1
    && (forall k :: 0 <= k < |c.operators| ==>
          && IsOperator(c.operators[k], splitPipes) && Run(START, c.operators[k]) == START
          && Unquoted(START, c.operators[k]) == c.operators[k] && Balanced(c.pieces[k]))
    && Run(START, c.pieces[|c.operators|]) == end
  }

  lemma OutsideCons(piece: string, op: string, more: Pieces, splitPipes: bool, end: State)
    requires CutsAreOutside(more, splitPipes, end)
    requires Balanced(piece) && IsOperator(op, splitPipes) && Run(START, op) == START && Unquoted(START, op) == op
    ensures CutsAreOutside(Pieces([piece] + more.pieces, [op] + more.operators), splitPipes, end)
  {
  }

  lemma {:induction false} CutOutsideQuotes(st: State, buf: string, rest: string, splitPipes: bool)
    requires Run(START, buf) == st
    ensures CutsAreOutside(Cut(st, buf, rest, splitPipes), splitPipes, Run(st, rest))
    decreases |rest|
  {
    if rest != "" {
      hide CutsAreOutside, IsOperator;
      var n := if st == START then OperatorLength(rest, splitPipes) else 0;
      if n == 0 {
        RunAppend(START, buf, [rest[0]]);
        OneChar(st, rest[0]);
        CutOutsideQuotes(Step(st, rest[0]), buf + [rest[0]], rest[1..], splitPipes);
      } else {
        CutOutsideQuotes(START, "", rest[n..], splitPipes);
        OperatorIsPlain(rest, splitPipes);
        RunAppend(START, rest[..n], rest[n..]);
        assert rest[..n] + rest[n..] == rest;
        OutsideCons(buf, rest[..n], Cut(START, "", rest[n..], splitPipes), splitPipes, Run(st, rest));
      }
    }
  }

  /** No operator outside quotes is left in `piece`. */
  ghost predicate Uncut(piece: string, behind: string, splitPipes: bool)
  {
    forall i :: 0 <= i < |piece| && Run(START, piece[..i]) == START ==>
      OperatorLength(piece[i..] + behind, splitPipes) == 0
  }

  lemma UncutAlone(piece: string, behind: string, splitPipes: bool)
    requires Uncut(piece, behind, splitPipes)
    ensures Uncut(piece, "", splitPipes)
  {
    forall i | 0 <= i < |piece| && Run(START, piece[..i]) == START
      ensures OperatorLength(piece[i..] + "", splitPipes) == 0
    {
      assert OperatorLength(piece[i..] + behind, splitPipes) == 0;
    }
  }

  lemma UncutMore(buf: string, rest: string, splitPipes: bool)
    requires rest != "" && Uncut(buf, rest, splitPipes)
    requires Run(START, buf) == START ==> OperatorLength(rest, splitPipes) == 0
    ensures Uncut(buf + [rest[0]], rest[1..], splitPipes)
  {
    var piece := buf + [rest[0]];
    forall i | 0 <= i < |piece| && Run(START, piece[..i]) == START
      ensures OperatorLength(piece[i..] + rest[1..], splitPipes) == 0
    {
      assert piece[..i] == buf[..i];
      assert piece[i..] + rest[1..] == buf[i..] + rest;
      if i == |buf| {
        assert buf[..i] == buf && buf[i..] + rest == rest;
      }
    }
  }

  ghost predicate AllUncut(pieces: seq<string>, splitPipes: bool)
  {
    forall k :: 0 <= k < |pieces| ==> Uncut(pieces[k], "", splitPipes)
  }

  lemma UncutCons(piece: string, pieces: seq<string>, splitPipes: bool)
    requires Uncut(piece, "", splitPipes) && AllUncut(pieces, splitPipes)
    ensures AllUncut([piece] + pieces, splitPipes)
  {
    hide Uncut;
  }

  lemma {:induction false} PiecesAreUncut(st: State, buf: string, rest: string, splitPipes: bool)
    requires Run(START, buf) == st && Uncut(buf, rest, splitPipes)
    ensures AllUncut(Cut(st, buf, rest, splitPipes).pieces, splitPipes)
    decreases |rest|
  {
    if rest != "" {
      hide Uncut, AllUncut;
      var n := if st == START then OperatorLength(rest, splitPipes) else 0;
      if n == 0 {
        RunAppend(START, buf, [rest[0]]);
        OneChar(st, rest[0]);
        UncutMore(buf, rest, splitPipes);
        PiecesAreUncut(Step(st, rest[0]), buf + [rest[0]], rest[1..], splitPipes);
      } else {
        UncutAlone(buf, rest, splitPipes);
        UncutEmpty(rest[n..], splitPipes);
        PiecesAreUncut(START, "", rest[n..], splitPipes);
        UncutCons(buf, Cut(START, "", rest[n..], splitPipes).pieces, splitPipes);
      }
    }
  }

  lemma UncutEmpty(behind: string, splitPipes: bool)
    ensures Uncut("", behind, splitPipes)
  {
  }

  /** No operator stands in `piece` outside quotes. */
  ghost predicate OperatorFree(piece: string, splitPipes: bool)
  {
    forall i, n :: 0 <= i <= n <= |piece| && Run(START, piece[..i]) == START ==> !IsOperator(piece[i..n], splitPipes)
  }

  lemma NoOperatorAhead(rest: string, splitPipes: bool, n: nat)
    requires OperatorLength(rest, splitPipes) == 0 && n <= |rest|
    ensures !IsOperator(rest[..n], splitPipes)
  {
    var op := rest[..n];
    assert n >= 1 ==> op[0] == rest[0];
    assert n >= 2 ==> op[1] == rest[1];
  }

  lemma UncutIsOperatorFree(piece: string, splitPipes: bool)
    requires Uncut(piece, "", splitPipes)
    ensures OperatorFree(piece, splitPipes)
  {
    hide OperatorLength, IsOperator;
    forall i, n | 0 <= i <= n <= |piece| && Run(START, piece[..i]) == START
      ensures !IsOperator(piece[i..n], splitPipes)
    {
      if i < |piece| {
        assert piece[i..] + "" == piece[i..] && piece[i..][..n - i] == piece[i..n];
        NoOperatorAhead(piece[i..], splitPipes, n - i);
      } else {
        assert piece[i..n] == "";
        NothingIsNoOperator(splitPipes);
      }
    }
  }

  lemma NothingIsNoOperator(splitPipes: bool)
    ensures !IsOperator("", splitPipes)
  {
  }

  /** Two bars in a row are one operator. */
  ghost predicate BarsAreTogether(c: Pieces)
  {
    forall k :: 0 <= k < |c.operators| - 1 && k + 1 < |c.pieces| && c.operators[k] == "|" && c.pieces[k + 1] == "" ==>
      c.operators[k + 1] != "|" && c.operators[k + 1] != "||"
  }

  lemma {:induction false} CutKeepsBars(st: State, buf: string, rest: string, splitPipes: bool)
    ensures BarsAreTogether(Cut(st, buf, rest, splitPipes))
    decreases |rest|
  {
    if rest != "" {
      hide BarsAreTogether, Step;
      var n := if st == START then OperatorLength(rest, splitPipes) else 0;
      if n == 0 {
        CutKeepsBars(Step(st, rest[0]), buf + [rest[0]], rest[1..], splitPipes);
      } else {
        var more := Cut(START, "", rest[n..], splitPipes);
        CutKeepsBars(START, "", rest[n..], splitPipes);
        CutKeepsText(START, "", rest[n..], splitPipes);
        NothingAdded(rest[n..]);
        BarsCons(buf, rest, n, splitPipes, more);
      }
    } else {
      assert Cut(st, buf, rest, splitPipes).operators == [];
    }
  }

  lemma BarsCons(piece: string, rest: string, n: nat, splitPipes: bool, more: Pieces)
    requires n == OperatorLength(rest, splitPipes) > 0
    requires |more.pieces| == |more.operators| + 1 && BarsAreTogether(more)
    requires Interleave(more.pieces, more.operators) == rest[n..]
    ensures BarsAreTogether(Pieces([piece] + more.pieces, [rest[..n]] + more.operators))
  {
    hide IsOperator;
    if rest[..n] == "|" && more.pieces[0] == "" && more.operators != [] {
      assert rest[..n][0] == '|';
      assert rest[n..] == more.operators[0] + Interleave(more.pieces[1..], more.operators[1..]);
    }
  }

  /** The split of a command: nothing is lost, the cuts are operators outside quotes, as long
      as can be, and no piece has such an operator in it. */
  lemma CutIsRight(raw: string, splitPipes: bool)
    ensures var c := CutCommand(raw, splitPipes);
      && Interleave(c.pieces, c.operators) == raw
      && (forall k :: 0 <= k < |c.operators| ==> IsOperator(c.operators[k], splitPipes))
      && (forall k :: 0 <= k < |c.operators| ==> Balanced(c.pieces[k]))
      && (Balanced(c.pieces[|c.operators|]) <==> Balanced(raw))
      && (forall k :: 0 <= k < |c.pieces| ==> OperatorFree(c.pieces[k], splitPipes))
      && BarsAreTogether(c)
  {
    hide Uncut, OperatorFree, BarsAreTogether;
    CutKeepsText(START, "", raw, splitPipes);
    CutKeepsBars(START, "", raw, splitPipes);
    CutOutsideQuotes(START, "", raw, splitPipes);
    UncutEmpty(raw, splitPipes);
    PiecesAreUncut(START, "", raw, splitPipes);
    var c := CutCommand(raw, splitPipes);
    forall k | 0 <= k < |c.pieces|
      ensures OperatorFree(c.pieces[k], splitPipes)
    {
      UncutIsOperatorFree(c.pieces[k], splitPipes);
    }
  }

  /** The text in front of the `k`th operator. */
  function InFront(c: Pieces, k: nat): string
    requires |c.pieces| == |c.operators| + 1 && k <= |c.operators|
  {
    if k == 0 then c.pieces[0] else InFront(c, k - 1) + c.operators[k - 1] + c.pieces[k]
  }

  /** No cut is inside quotes or behind a backslash: read from the beginning of the
      command, the scanner is outside quotes at every operator it cuts at. */
  lemma {:induction false} NoCutInQuotes(raw: string, splitPipes: bool, k: nat)
    requires k < |CutCommand(raw, splitPipes).operators|
    ensures Run(START, InFront(CutCommand(raw, splitPipes), k)) == START
  {
    var c := CutCommand(raw, splitPipes);
    CutOutsideQuotes(START, "", raw, splitPipes);
    if k > 0 {
      NoCutInQuotes(raw, splitPipes, k - 1);
      RunAppend(START, InFront(c, k - 1), c.operators[k - 1]);
      RunAppend(START, InFront(c, k - 1) + c.operators[k - 1], c.pieces[k]);
    }
  }

  // ----- the two scanners together -----

  lemma BlankIsSpaces(s: string)
    requires Blank(s)
    ensures forall i :: 0 <= i < |s| ==> IsSpace(s[i])
  {
    TrimEndIsPrefix(s);
    TrimStartIsSuffix(TrimEnd(s));
  }

  lemma {:induction false} SpacesAreBalanced(s: string)
    requires forall i :: 0 <= i < |s| ==> IsSpace(s[i])
    ensures Balanced(s)
  {
    if s != "" {
      SpacesAreBalanced(s[1..]);
    }
  }

  lemma {:induction false} NonBlankBalanced(pieces: seq<string>)
    ensures (forall s :: s in NonBlank(pieces) ==> Balanced(s))
       <==> (forall k :: 0 <= k < |pieces| ==> Balanced(pieces[k]))
  {
    if pieces != [] {
      NonBlankBalanced(pieces[1..]);
      if Blank(pieces[0]) {
        BlankIsSpaces(pieces[0]);
        SpacesAreBalanced(pieces[0]);
      }
      assert pieces == [pieces[0]] + pieces[1..];
      var rest := pieces[1..];
      assert (forall k :: 0 <= k < |pieces| ==> Balanced(pieces[k]))
         <==> Balanced(pieces[0]) && (forall k :: 0 <= k < |rest| ==> Balanced(rest[k]));
    }
  }

  /** Of pieces put behind one another each makes a segment of its own, unless it is blank. */
  lemma {:induction false} SegmentsAreThePieces(pieces: seq<string>, more: seq<string>, piece: string)
    ensures NonBlank(pieces + more) == NonBlank(pieces) + NonBlank(more)
    ensures NonBlank([piece]) == if Visible(piece) then [piece] else []
  {
    PieceIsVisible(piece);
    assert [piece][1..] == [] && NonBlank([]) == [];
    if pieces == [] {
      assert pieces + more == more;
    } else {
      assert (pieces + more)[1..] == pieces[1..] + more;
      SegmentsAreThePieces(pieces[1..], more, piece);
    }
  }

  /** Something of it can be seen. */
  predicate Visible(s: string)
  {
    exists i :: 0 <= i < |s| && !IsSpace(s[i])
  }

  lemma PieceIsVisible(s: string)
    ensures Blank(s) <==> !Visible(s)
  {
    hide IsSpace, Trim;
    if Blank(s) {
      BlankIsSpaces(s);
    } else {
      var from, to := TrimIsSlice(s);
      assert !IsSpace(s[from]);
    }
  }

  /** A command is balanced exactly when text can be extracted from every segment. */
  lemma BalancedExactlyInSegments(raw: string, splitPipes: bool)
    ensures Balanced(raw) <==> forall s :: s in Segments(raw, splitPipes) ==> Extract(s).Some?
  {
    var c := CutCommand(raw, splitPipes);
    CutIsRight(raw, splitPipes);
    NonBlankBalanced(c.pieces);
    assert forall s :: s in Segments(raw, splitPipes) ==> (Extract(s).Some? <==> Balanced(s));
  }

  function UnquotedAll(pieces: seq<string>): (r: seq<string>)
    ensures |r| == |pieces|
  {
    if pieces == [] then [] else [Unquoted(START, pieces[0])] + UnquotedAll(pieces[1..])
  }

  lemma {:induction false} UnquotedInterleave(pieces: seq<string>, operators: seq<string>)
    requires |pieces| == |operators| + 1
    requires forall k :: 0 <= k < |operators| ==>
      Balanced(pieces[k]) && Run(START, operators[k]) == START && Unquoted(START, operators[k]) == operators[k]
    ensures Unquoted(START, Interleave(pieces, operators)) == Interleave(UnquotedAll(pieces), operators)
    decreases |operators|
  {
    if operators != [] {
      var more := Interleave(pieces[1..], operators[1..]);
      UnquotedInterleave(pieces[1..], operators[1..]);
      RunAppend(START, pieces[0], operators[0]);
      UnquotedAppend(START, pieces[0], operators[0]);
      UnquotedAppend(START, pieces[0] + operators[0], more);
    }
  }

  /** Extracting the text of a command and extracting it piece by piece agree. */
  lemma ExtractionFollowsTheCuts(raw: string, splitPipes: bool)
    requires Balanced(raw)
    ensures var c := CutCommand(raw, splitPipes);
      && (forall k :: 0 <= k < |c.pieces| ==> Extract(c.pieces[k]) == Some(UnquotedAll(c.pieces)[k]))
      && Extract(raw) == Some(Interleave(UnquotedAll(c.pieces), c.operators))
  {
    hide Cut, Unquoted, Interleave, UnquotedAll, IsOperator, AllUncut;
    var c := CutCommand(raw, splitPipes);
    CutIsRight(raw, splitPipes);
    CutOutsideQuotes(START, "", raw, splitPipes);
    UnquotedInterleave(c.pieces, c.operators);
    forall k | 0 <= k < |c.pieces|
      ensures UnquotedAll(c.pieces)[k] == Unquoted(START, c.pieces[k])
    {
      UnquotedAllAt(c.pieces, k);
    }
  }

  lemma {:induction false} UnquotedAllAt(pieces: seq<string>, k: nat)
    requires k < |pieces|
    ensures UnquotedAll(pieces)[k] == Unquoted(START, pieces[k])
  {
    if k > 0 {
      UnquotedAllAt(pieces[1..], k - 1);
    }
  }
}
