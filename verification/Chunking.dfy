/** Greedy chunking by a token limit (`chunkMessagesByMaxTokens` in
    src/agents/compaction.ts), and why no other chunking is shorter. */
module Chunking {
  import opened Collections
  import opened Messages

  const SAFETY_MARGIN: real := 1.2

  function EffectiveMax(maxTokens: real): (m: nat)
    ensures m >= 1
    ensures maxTokens >= SAFETY_MARGIN ==> m as real * SAFETY_MARGIN <= maxTokens < (m + 1) as real * SAFETY_MARGIN
    ensures maxTokens < SAFETY_MARGIN ==> m == 1
  {
    var margin := (maxTokens / SAFETY_MARGIN).Floor;
    if margin < 1 then 1 else margin
  }

  /** What a chunk may be: within the limit, or one message by itself. */
  predicate Fits(estimate: Estimator, limit: nat, chunk: seq<Message>)
  {
    chunk != [] && (Tokens(estimate, chunk) <= limit || |chunk| == 1)
  }

  ghost predicate AllFit(estimate: Estimator, limit: nat, chunks: seq<seq<Message>>)
  {
    forall i :: 0 <= i < |chunks| ==> Fits(estimate, limit, chunks[i])
  }

  /** `chunk` could not have taken the first message of `next` as well. */
  predicate Closed(estimate: Estimator, limit: nat, chunk: seq<Message>, next: seq<Message>)
  {
    next != [] && !Fits(estimate, limit, chunk + [next[0]])
  }

  ghost predicate Maximal(estimate: Estimator, limit: nat, chunks: seq<seq<Message>>)
  {
    forall i :: 0 < i < |chunks| ==> Closed(estimate, limit, chunks[i - 1], chunks[i])
  }

  /** Part of a chunk that fits also fits. */
  lemma PartFits(estimate: Estimator, limit: nat, before: seq<Message>, part: seq<Message>, behind: seq<Message>)
    requires Fits(estimate, limit, before + part + behind) && part != []
    ensures Fits(estimate, limit, part)
  {
    TokensAppend(estimate, before + part, behind);
    TokensAppend(estimate, before, part);
  }

  lemma TailsInherit(estimate: Estimator, limit: nat, chunks: seq<seq<Message>>)
    requires chunks != []
    ensures AllFit(estimate, limit, chunks) ==> AllFit(estimate, limit, chunks[1..])
    ensures Maximal(estimate, limit, chunks) ==> Maximal(estimate, limit, chunks[1..])
  {
    if Maximal(estimate, limit, chunks) {
      forall i | 0 < i < |chunks[1..]|
        ensures Closed(estimate, limit, chunks[1..][i - 1], chunks[1..][i])
      {
        assert Closed(estimate, limit, chunks[i + 1 - 1], chunks[i + 1]);
      }
    }
  }

  /** Two ways to write the same messages line up at their shorter first parts. */
  lemma Align(a: seq<Message>, restA: seq<Message>, b: seq<Message>, restB: seq<Message>)
    requires a + restA == b + restB && |a| <= |b|
    ensures b == a + b[|a|..] && restA == b[|a|..] + restB
  {
    assert (a + restA)[..|a|] == a && (b + restB)[..|a|] == b[..|a|];
    assert (a + restA)[|a|..] == restA && (b + restB)[|a|..] == b[|a|..] + restB;
  }

  /** If the first chunk stops before `reach`, which fits together with `extra`, then it
      could have taken the next message as well. */
  lemma ShortFirstIsNotClosed(estimate: Estimator, limit: nat, extra: seq<Message>, reach: seq<Message>,
                              chunks: seq<seq<Message>>, rest: seq<Message>)
    requires chunks != [] && AllFit(estimate, limit, chunks)
    requires Fits(estimate, limit, extra + reach) && |chunks[0]| < |reach|
    requires Flatten(chunks) == reach + rest
    ensures |chunks| >= 2 && !Closed(estimate, limit, chunks[0], chunks[1])
  {
    Align(chunks[0], Flatten(chunks[1..]), reach, rest);
    var more := reach[|chunks[0]|..];
    assert Flatten(chunks[1..]) == chunks[1] + Flatten(chunks[1..][1..]);
    assert more[0] == chunks[1][0] by {
      assert Flatten(chunks[1..])[0] == more[0];
    }
    var longer := chunks[0] + [more[0]];
    assert extra + reach == extra + longer + more[1..];
    PartFits(estimate, limit, extra, longer, more[1..]);
  }

  /** A maximal chunking of what is left after `extra` is no longer than any chunking
      of the whole. */
  lemma {:induction false} MaximalIsShortest(estimate: Estimator, limit: nat, extra: seq<Message>,
                                             greedy: seq<seq<Message>>, other: seq<seq<Message>>)
    requires AllFit(estimate, limit, greedy) && Maximal(estimate, limit, greedy) && AllFit(estimate, limit, other)
    requires Flatten(other) == extra + Flatten(greedy)
    ensures |greedy| <= |other|
    decreases |other|
  {
    if greedy != [] {
      assert Flatten(greedy) == greedy[0] + Flatten(greedy[1..]) != [];
      var q, behind := other[0], Flatten(other[1..]);
      TailsInherit(estimate, limit, other);
      TailsInherit(estimate, limit, greedy);
      if |q| <= |extra| {
        Align(q, behind, extra, Flatten(greedy));
        MaximalIsShortest(estimate, limit, extra[|q|..], greedy, other[1..]);
      } else {
        Align(extra, Flatten(greedy), q, behind);
        var reach := q[|extra|..];
        if |greedy[0]| < |reach| {
          ShortFirstIsNotClosed(estimate, limit, extra, reach, greedy, behind);
          assert false;
        }
        Align(reach, behind, greedy[0], Flatten(greedy[1..]));
        MaximalIsShortest(estimate, limit, greedy[0][|reach|..], greedy[1..], other[1..]);
      }
    }
  }

  /** The chunks so far can only be followed by what they are closed against: nothing
      fits behind the last one if it is oversized, else the current chunk is open. */
  ghost predicate Open(estimate: Estimator, limit: nat, chunks: seq<seq<Message>>, current: seq<Message>)
  {
    && AllFit(estimate, limit, chunks) && Maximal(estimate, limit, chunks)
    && (current != [] ==> Tokens(estimate, current) <= limit)
    && (chunks != [] && current != [] ==> Closed(estimate, limit, chunks[|chunks| - 1], current))
    && (chunks != [] && current == [] ==> Tokens(estimate, chunks[|chunks| - 1]) > limit)
  }

  lemma PushKeeps(estimate: Estimator, limit: nat, chunks: seq<seq<Message>>, chunk: seq<Message>)
    requires AllFit(estimate, limit, chunks) && Maximal(estimate, limit, chunks) && Fits(estimate, limit, chunk)
    requires chunks != [] ==> Closed(estimate, limit, chunks[|chunks| - 1], chunk)
    ensures AllFit(estimate, limit, chunks + [chunk]) && Maximal(estimate, limit, chunks + [chunk])
    ensures Flatten(chunks + [chunk]) == Flatten(chunks) + chunk
  {
    FlattenSnoc(chunks, chunk);
  }

  /** The message may join the current chunk, as far as the chunks before are concerned. */
  ghost predicate Ready(estimate: Estimator, limit: nat, chunks: seq<seq<Message>>, current: seq<Message>, m: Message)
  {
    && AllFit(estimate, limit, chunks) && Maximal(estimate, limit, chunks)
    && (current != [] ==> Tokens(estimate, current) + estimate(m) <= limit)
    && (chunks != [] ==> Closed(estimate, limit, chunks[|chunks| - 1], current + [m]))
  }

  lemma ReadyIfItFits(estimate: Estimator, limit: nat, chunks: seq<seq<Message>>, current: seq<Message>, m: Message)
    requires Open(estimate, limit, chunks, current)
    requires current == [] || Tokens(estimate, current) + estimate(m) <= limit
    ensures Ready(estimate, limit, chunks, current, m)
  {
    if chunks != [] {
      TokensSnoc(estimate, chunks[|chunks| - 1], m);
    }
  }

  lemma ReadyAfterPush(estimate: Estimator, limit: nat, chunks: seq<seq<Message>>, current: seq<Message>, m: Message)
    requires Open(estimate, limit, chunks, current)
    requires current != [] && Tokens(estimate, current) + estimate(m) > limit
    ensures Ready(estimate, limit, chunks + [current], [], m)
    ensures Flatten(chunks + [current]) + [] == Flatten(chunks) + current
  {
    PushKeeps(estimate, limit, chunks, current);
    TokensSnoc(estimate, current, m);
  }

  lemma OpenAfterJoining(estimate: Estimator, limit: nat, chunks: seq<seq<Message>>, current: seq<Message>, m: Message)
    requires Ready(estimate, limit, chunks, current, m)
    ensures Tokens(estimate, current + [m]) == Tokens(estimate, current) + estimate(m)
    ensures estimate(m) <= limit ==> Open(estimate, limit, chunks, current + [m])
    ensures estimate(m) > limit ==> Open(estimate, limit, chunks + [current + [m]], [])
    ensures Flatten(chunks) + (current + [m]) == Flatten(chunks) + current + [m]
    ensures Flatten(chunks + [current + [m]]) + [] == Flatten(chunks) + current + [m]
  {
    FlattenSnoc(chunks, current + [m]);
    TokensSnoc(estimate, current, m);
    if estimate(m) > limit {
      assert current + [m] == [m];
      PushKeeps(estimate, limit, chunks, [m]);
    }
  }

  method ChunkMessagesByMaxTokens(estimate: Estimator, messages: seq<Message>, maxTokens: real)
    returns (chunks: seq<seq<Message>>)
    ensures Flatten(chunks) == messages
    ensures AllFit(estimate, EffectiveMax(maxTokens), chunks)
    ensures forall other :: Flatten(other) == messages && AllFit(estimate, EffectiveMax(maxTokens), other) ==>
              |chunks| <= |other|
  {
    var effectiveMax := EffectiveMax(maxTokens);
    chunks := [];
    var currentChunk: seq<Message> := [];
    var currentTokens := 0;
    var i := 0;
    while i < |messages|
      invariant 0 <= i <= |messages|
      invariant Flatten(chunks) + currentChunk == messages[..i]
      invariant currentTokens == Tokens(estimate, currentChunk)
      invariant Open(estimate, effectiveMax, chunks, currentChunk)
    {
      var message := messages[i];
      var messageTokens := estimate(message);
      assert messages[..i + 1] == messages[..i] + [message];
      if currentChunk != [] && currentTokens + messageTokens > effectiveMax {
        ReadyAfterPush(estimate, effectiveMax, chunks, currentChunk, message);
        chunks := chunks + [currentChunk];
        currentChunk := [];
        currentTokens := 0;
      } else {
        ReadyIfItFits(estimate, effectiveMax, chunks, currentChunk, message);
      }
      OpenAfterJoining(estimate, effectiveMax, chunks, currentChunk, message);
      currentChunk := currentChunk + [message];
      currentTokens := currentTokens + messageTokens;
      if messageTokens > effectiveMax {
        chunks := chunks + [currentChunk];
        currentChunk := [];
        currentTokens := 0;
      }
      i := i + 1;
    }
    assert messages[..i] == messages;
    if currentChunk != [] {
      PushKeeps(estimate, effectiveMax, chunks, currentChunk);
      chunks := chunks + [currentChunk];
    }
    NoneIsShorter(estimate, effectiveMax, chunks);
  }

  lemma NoneIsShorter(estimate: Estimator, limit: nat, chunks: seq<seq<Message>>)
    requires AllFit(estimate, limit, chunks) && Maximal(estimate, limit, chunks)
    ensures forall other :: Flatten(other) == Flatten(chunks) && AllFit(estimate, limit, other) ==> |chunks| <= |other|
  {
    forall other | Flatten(other) == Flatten(chunks) && AllFit(estimate, limit, other)
      ensures |chunks| <= |other|
    {
      MaximalIsShortest(estimate, limit, [], chunks, other);
    }
  }
}
