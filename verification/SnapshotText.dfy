/** Forwarding a growing assistant text as chunks (`handleDeltaEvent` in
    src/acp/translator.ts). The answer text and the thinking text of a prompt are each
    forwarded by one such channel. */
module SnapshotText {
  import opened Collections
  import opened Text

  /** What has been sent, by count and as text, and the chunks sent so far. */
  datatype Channel = Channel(sentLength: nat, sentText: string, chunks: seq<string>)

  const FRESH := Channel(0, "", [])

  /** The text of a snapshot: its blocks joined by newlines, right-trimmed. */
  function FullText(blocks: seq<string>): string
  {
    TrimEnd(Join(blocks, "\n"))
  }

  /** That is, nothing but white space at the end is left out of the joined blocks. */
  lemma OnlyTheEndIsTrimmed(blocks: seq<string>)
    ensures var all, full := Join(blocks, "\n"), FullText(blocks);
      && full <= all && (full != "" ==> !IsSpace(full[|full| - 1]))
      && (forall i :: |full| <= i < |all| ==> IsSpace(all[i]))
  {
    TrimEndIsPrefix(Join(blocks, "\n"));
  }

  function Forward(c: Channel, blocks: seq<string>): Channel
  {
    var full := FullText(blocks);
    if full == "" || |full| <= c.sentLength then c
    else Channel(|full|, full, c.chunks + [full[c.sentLength..]])
  }

  function ForwardAll(c: Channel, snapshots: seq<seq<string>>): Channel
  {
    if snapshots == [] then c
    else Forward(ForwardAll(c, snapshots[..|snapshots| - 1]), snapshots[|snapshots| - 1])
  }

  /** A prompt's record of one of its two texts. */
  class SentText {
    var sentLength: nat
    var sentText: string
    ghost var chunks: seq<string>

    constructor ()
      ensures View() == FRESH
    {
      sentLength, sentText, chunks := 0, "", [];
    }

    ghost function View(): Channel
      reads this
    {
      Channel(sentLength, sentText, chunks)
    }

    /** The text step of a snapshot, up to its await; `None` when nothing is sent. */
    method Process(blocks: seq<string>) returns (chunk: Option<string>)
      modifies this
      ensures View() == Forward(old(View()), blocks)
      ensures chunks == old(chunks) + if chunk.Some? then [chunk.value] else []
    {
      var full := FullText(blocks);
      if full == "" || |full| <= sentLength {
        return None;
      }
      chunk := Some(full[sentLength..]);
      sentLength := |full|;
      sentText := full;
      chunks := chunks + [chunk.value];
    }
  }

  // ----- what the client has seen -----

  /** Whatever the snapshots, the count is the length of what was sent. */
  lemma {:induction false} SentLengthIsExact(snapshots: seq<seq<string>>)
    ensures var c := ForwardAll(FRESH, snapshots);
      |Flatten(c.chunks)| == c.sentLength == |c.sentText|
  {
    if snapshots != [] {
      SentLengthIsExact(snapshots[..|snapshots| - 1]);
      var c := ForwardAll(FRESH, snapshots[..|snapshots| - 1]);
      var full := FullText(snapshots[|snapshots| - 1]);
      if |full| > c.sentLength {
        FlattenSnoc(c.chunks, full[c.sentLength..]);
      }
    }
  }

  /** A longer snapshot brings the client to exactly its text if and only if what the
      client had seen before is a prefix of it. */
  lemma StepIsExactlyRightForPrefixes(c: Channel, blocks: seq<string>)
    requires |Flatten(c.chunks)| == c.sentLength < |FullText(blocks)|
    ensures Flatten(Forward(c, blocks).chunks) == FullText(blocks) <==> Flatten(c.chunks) <= FullText(blocks)
  {
    var full := FullText(blocks);
    FlattenSnoc(c.chunks, full[c.sentLength..]);
    assert full == full[..c.sentLength] + full[c.sentLength..];
    if Flatten(c.chunks) + full[c.sentLength..] == full {
      assert full[..c.sentLength] == Flatten(c.chunks);
    }
  }

  /** The snapshots' joined texts are prefixes of one another, one way or the other. */
  ghost predicate PrefixOrdered(snapshots: seq<seq<string>>)
  {
    forall i, j :: 0 <= i < |snapshots| && 0 <= j < |snapshots| ==>
      Join(snapshots[i], "\n") <= Join(snapshots[j], "\n") || Join(snapshots[j], "\n") <= Join(snapshots[i], "\n")
  }

  /** `text` is the longest right-trimmed text among the snapshots. */
  ghost predicate IsLongest(text: string, snapshots: seq<seq<string>>)
  {
    && (text == "" || exists i :: 0 <= i < |snapshots| && FullText(snapshots[i]) == text)
    && (forall i :: 0 <= i < |snapshots| ==> FullText(snapshots[i]) <= text)
  }

  /** In whatever order snapshots that are prefixes of one another are handled, the
      chunks sent so far concatenate to the longest right-trimmed snapshot so far. */
  lemma {:induction false} ChunksAreTheLongestSnapshot(snapshots: seq<seq<string>>)
    requires PrefixOrdered(snapshots)
    ensures var c := ForwardAll(FRESH, snapshots);
      IsLongest(Flatten(c.chunks), snapshots) && c.sentText == Flatten(c.chunks)
  {
    if snapshots != [] {
      var before, last := snapshots[..|snapshots| - 1], snapshots[|snapshots| - 1];
      ChunksAreTheLongestSnapshot(before);
      SentLengthIsExact(before);
      var c := ForwardAll(FRESH, before);
      SeenIsComparable(snapshots, Flatten(c.chunks));
      ForwardComparable(c, last);
      if |FullText(last)| > c.sentLength {
        NewLongest(snapshots, Flatten(c.chunks));
      } else {
        StillLongest(snapshots, Flatten(c.chunks));
      }
    }
  }

  lemma ForwardComparable(c: Channel, blocks: seq<string>)
    requires |Flatten(c.chunks)| == c.sentLength && c.sentText == Flatten(c.chunks)
    requires var full := FullText(blocks); |full| > c.sentLength ==> c.sentText <= full
    ensures var full := FullText(blocks); var after := Forward(c, blocks);
      if |full| > c.sentLength then after.sentText == full == Flatten(after.chunks) else after == c
  {
    var full := FullText(blocks);
    if |full| > c.sentLength {
      FlattenSnoc(c.chunks, full[c.sentLength..]);
      assert c.sentText + full[c.sentLength..] == full;
    }
  }

  lemma NewLongest(snapshots: seq<seq<string>>, seen: string)
    requires snapshots != [] && IsLongest(seen, snapshots[..|snapshots| - 1])
    requires seen <= FullText(snapshots[|snapshots| - 1])
    ensures IsLongest(FullText(snapshots[|snapshots| - 1]), snapshots)
  {
    forall i | 0 <= i < |snapshots| - 1
      ensures FullText(snapshots[i]) <= FullText(snapshots[|snapshots| - 1])
    {
      assert snapshots[..|snapshots| - 1][i] == snapshots[i];
    }
  }

  lemma StillLongest(snapshots: seq<seq<string>>, seen: string)
    requires snapshots != [] && IsLongest(seen, snapshots[..|snapshots| - 1])
    requires FullText(snapshots[|snapshots| - 1]) <= seen
    ensures IsLongest(seen, snapshots)
  {
    var before := snapshots[..|snapshots| - 1];
    if seen != "" {
      var i :| 0 <= i < |before| && FullText(before[i]) == seen;
      assert snapshots[i] == before[i];
    }
    forall i | 0 <= i < |before|
      ensures FullText(snapshots[i]) <= seen
    {
      assert before[i] == snapshots[i];
    }
  }

  lemma SeenIsComparable(snapshots: seq<seq<string>>, seen: string)
    requires snapshots != [] && PrefixOrdered(snapshots) && IsLongest(seen, snapshots[..|snapshots| - 1])
    ensures var full := FullText(snapshots[|snapshots| - 1]);
      if |full| > |seen| then seen <= full else full <= seen
  {
    var before, last := snapshots[..|snapshots| - 1], |snapshots| - 1;
    if seen != "" {
      var i :| 0 <= i < |before| && FullText(before[i]) == seen;
      assert before[i] == snapshots[i];
      if Join(snapshots[i], "\n") <= Join(snapshots[last], "\n") {
        TrimEndMonotone(Join(snapshots[i], "\n"), Join(snapshots[last], "\n"));
      } else {
        TrimEndMonotone(Join(snapshots[last], "\n"), Join(snapshots[i], "\n"));
      }
    }
  }
}
