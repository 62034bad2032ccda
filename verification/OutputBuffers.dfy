/** The capped output buffers of a process session (src/agents/bash-process-registry.ts)
    and the splitting of incoming text (src/agents/bash-tools.shared.ts). */
module OutputBuffers {
  import opened Collections
  import opened Text
  import opened OutputHistory

  const CHUNK_LIMIT: nat := 8192
  const DEFAULT_PENDING_OUTPUT_CHARS: nat := 30000
  const TAIL_CHARS: nat := 2000

  function Min(a: nat, b: nat): nat { if a <= b then a else b }

  lemma LastNAgain(s: string, n: nat, m: nat)
    ensures LastN(LastN(s, n), m) == LastN(s, Min(m, n))
  {
  }

  lemma LastNWhole(s: string, n: nat)
    requires |s| <= n
    ensures LastN(s, n) == s
  {
  }

  /** Cuts `input` into pieces of `limit` characters and a rest. */
  method ChunkString(input: string, limit: nat) returns (chunks: seq<string>)
    requires limit > 0
    ensures Flatten(chunks) == input
    ensures forall i :: 0 <= i < |chunks| ==> 0 < |chunks[i]| <= limit
    ensures forall i :: 0 <= i < |chunks| - 1 ==> |chunks[i]| == limit
  {
    chunks := [];
    var i := 0;
    while i < |input|
      invariant 0 <= i && (i <= |input| || chunks != [])
      invariant Flatten(chunks) == input[..Min(i, |input|)]
      invariant forall k :: 0 <= k < |chunks| ==> 0 < |chunks[k]| <= limit
      invariant i < |input| ==> forall k :: 0 <= k < |chunks| ==> |chunks[k]| == limit
      invariant forall k :: 0 <= k < |chunks| - 1 ==> |chunks[k]| == limit
    {
      var end := Min(i + limit, |input|);
      FlattenSnoc(chunks, input[i..end]);
      assert input[..end] == input[..i] + input[i..end];
      chunks := chunks + [input[i..end]];
      i := i + limit;
    }
  }

  /** Drops text from the front until `cap` characters are left. */
  method CapPendingBuffer(buffer: seq<string>, pendingChars: nat, cap: nat)
    returns (kept: seq<string>, chars: nat)
    requires pendingChars == |Flatten(buffer)|
    ensures Flatten(kept) == LastN(Flatten(buffer), cap)
    ensures chars == |Flatten(kept)|
  {
    kept, chars := buffer, pendingChars;
    if pendingChars <= cap {
      return;
    }
    if buffer != [] {
      var last := buffer[|buffer| - 1];
      FlattenLast(buffer);
      if last != "" && |last| >= cap {
        LastNCut(Flatten(buffer[..|buffer| - 1]), last, cap);
        kept := [last[|last| - cap..]];
        FlattenSingle(kept[0]);
        return kept, cap;
      }
    }
    while kept != [] && chars - |kept[0]| >= cap
      invariant chars == |Flatten(kept)| >= cap
      invariant LastN(Flatten(kept), cap) == LastN(Flatten(buffer), cap)
      decreases |kept|
    {
      LastNCut(kept[0], Flatten(kept[1..]), cap);
      chars := chars - |kept[0]|;
      kept := kept[1..];
    }
    if kept != [] && chars > cap {
      var overflow := chars - cap;
      var rest := kept[1..];
      assert Flatten(kept)[overflow..] == kept[0][overflow..] + Flatten(rest);
      kept := [kept[0][overflow..]] + rest;
      assert kept[1..] == rest;
      chars := cap;
    }
  }

  class ProcessSession {
    const maxOutputChars: nat
    const pendingMaxOutputChars: Option<nat>
    var totalOutputChars: nat
    var pendingStdout: seq<string>
    var pendingStderr: seq<string>
    var pendingStdoutChars: nat
    var pendingStderrChars: nat
    var aggregated: string
    var tail: string
    var truncated: bool
    /** Every write and drain so far. */
    ghost var history: seq<Event>

    function Caps(): Limits
    {
      var pending := if pendingMaxOutputChars.Some? then pendingMaxOutputChars.value else DEFAULT_PENDING_OUTPUT_CHARS;
      Limits(Min(pending, maxOutputChars), maxOutputChars)
    }

    /** The buffers hold exactly what the limits let them keep of the history. */
    ghost predicate Valid()
      reads this
    {
      && Flatten(pendingStdout) == LastN(SinceDrain(history, Stdout), Caps().pendingCap)
      && Flatten(pendingStderr) == LastN(SinceDrain(history, Stderr), Caps().pendingCap)
      && pendingStdoutChars == |Flatten(pendingStdout)|
      && pendingStderrChars == |Flatten(pendingStderr)|
      && aggregated == LastN(Everything(history), maxOutputChars)
      && tail == LastN(Everything(history), Min(TAIL_CHARS, maxOutputChars))
      && totalOutputChars == |Everything(history)|
      && (truncated <==> EverDropped(history, Caps()))
    }

    constructor (maxOutput: nat, pendingMaxOutput: Option<nat>)
      ensures Valid() && history == []
      ensures maxOutputChars == maxOutput && pendingMaxOutputChars == pendingMaxOutput
    {
      maxOutputChars, pendingMaxOutputChars := maxOutput, pendingMaxOutput;
      totalOutputChars := 0;
      pendingStdout, pendingStderr, pendingStdoutChars, pendingStderrChars := [], [], 0, 0;
      aggregated, tail, truncated, history := "", "", false, [];
      new;
      NothingDroppedAtFirst(Caps());
    }

    function Buffer(stream: Stream): seq<string>
      reads this
    {
      if stream == Stdout then pendingStdout else pendingStderr
    }

    ghost predicate Counted()
      reads this
    {
      pendingStdoutChars == |Flatten(pendingStdout)| && pendingStderrChars == |Flatten(pendingStderr)|
    }

    /** The part of `appendOutput` that is about the pending buffer of the stream. */
    method AppendPending(stream: Stream, chunk: string)
      requires Counted()
      modifies this`pendingStdout, this`pendingStderr, this`pendingStdoutChars, this`pendingStderrChars, this`truncated
      ensures Counted()
      ensures Flatten(Buffer(stream)) == LastN(old(Flatten(Buffer(stream))) + chunk, Caps().pendingCap)
      ensures stream == Stdout ==> pendingStderr == old(pendingStderr)
      ensures stream == Stderr ==> pendingStdout == old(pendingStdout)
      ensures truncated == (old(truncated) || |old(Flatten(Buffer(stream)))| + |chunk| > Caps().pendingCap)
    {
      hide Flatten, LastN;
      var buffer := Buffer(stream);
      var bufferChars := if stream == Stdout then pendingStdoutChars else pendingStderrChars;
      var pendingCap := Caps().pendingCap;
      FlattenSnoc(buffer, chunk);
      buffer := buffer + [chunk];
      var pendingChars := bufferChars + |chunk|;
      if pendingChars > pendingCap {
        truncated := true;
        buffer, pendingChars := CapPendingBuffer(buffer, pendingChars, pendingCap);
      } else {
        LastNWhole(Flatten(buffer), pendingCap);
      }
      if stream == Stdout {
        pendingStdout, pendingStdoutChars := buffer, pendingChars;
      } else {
        pendingStderr, pendingStderrChars := buffer, pendingChars;
      }
    }

    method AppendOutput(stream: Stream, chunk: string)
      requires Valid()
      modifies this
      ensures Valid() && history == old(history) + [Wrote(stream, chunk)]
    {
      hide SinceDrain, Everything, EverDropped, Flatten, LastN, Overflows;
      HistoryStep(history, Wrote(stream, chunk));
      DroppedByWrite(history, stream, chunk, Caps());
      LastNOfAppend(SinceDrain(history, stream), chunk, Caps().pendingCap);
      AppendPending(stream, chunk);
      totalOutputChars := totalOutputChars + |chunk|;
      var trimmed := LastN(aggregated + chunk, maxOutputChars);
      LastNOfAppend(Everything(history), chunk, maxOutputChars);
      truncated := truncated || |trimmed| < |aggregated| + |chunk|;
      aggregated := trimmed;
      tail := LastN(aggregated, TAIL_CHARS);
      LastNAgain(Everything(history) + chunk, maxOutputChars, TAIL_CHARS);
      history := history + [Wrote(stream, chunk)];
    }

    /** Hands out the pending text of both streams and forgets it. */
    method DrainSession() returns (stdout: string, stderr: string)
      requires Valid()
      modifies this
      ensures Valid() && history == old(history) + [Drained]
      ensures stdout == LastN(SinceDrain(old(history), Stdout), Caps().pendingCap)
      ensures stderr == LastN(SinceDrain(old(history), Stderr), Caps().pendingCap)
    {
      hide SinceDrain, Everything, EverDropped, LastN;
      stdout, stderr := Flatten(pendingStdout), Flatten(pendingStderr);
      pendingStdout, pendingStderr := [], [];
      pendingStdoutChars, pendingStderrChars := 0, 0;
      HistoryStep(history, Drained);
      DroppedStep(history, Drained, Caps());
      NowOverflowing(history, Caps());
      LastNWhole("", Caps().pendingCap);
      history := history + [Drained];
    }

    /** Incoming text, fed in chunks, leaves the session as if it had come in one piece. */
    method HandleOutput(stream: Stream, text: string)
      requires Valid()
      modifies this
      ensures Valid()
      ensures SameOutput(history, old(history) + [Wrote(stream, text)], Caps())
    {
      hide Valid, SameOutput, Caps;
      var chunks := ChunkString(text, CHUNK_LIMIT);
      var i := 0;
      while i < |chunks|
        invariant Valid() && 0 <= i <= |chunks|
        invariant history == old(history) + Writes(stream, chunks[..i])
      {
        AppendOutput(stream, chunks[i]);
        assert chunks[..i + 1][..i] == chunks[..i];
        i := i + 1;
      }
      assert chunks[..i] == chunks;
      PiecesMakeTheWhole(old(history), stream, chunks, Caps());
    }
  }
}
