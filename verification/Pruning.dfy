/** Dropping the oldest shares of a history until it fits its budget
    (`pruneHistoryForContextShare` in src/agents/compaction.ts). */
module Pruning {
  import opened Collections
  import opened Messages
  import opened TokenShare
  import opened Repair
  import opened RepairCounts

  datatype Pruned = Pruned(
    messages: seq<Message>,
    droppedMessagesList: seq<Message>,
    droppedChunks: nat,
    droppedMessages: nat,
    droppedTokens: nat,
    keptTokens: nat,
    budgetTokens: nat)

  function Budget(maxContextTokens: real, maxHistoryShare: real): (b: nat)
    ensures b >= 1
    ensures maxContextTokens * maxHistoryShare >= 1.0
            ==> b as real <= maxContextTokens * maxHistoryShare < b as real + 1.0
  {
    var share := (maxContextTokens * maxHistoryShare).Floor;
    if share < 1 then 1 else share
  }

  /** Pruning can stop: the history fits, or it cannot be split any more. */
  predicate Settled(estimate: Estimator, messages: seq<Message>, budget: nat, parts: nat)
  {
    Tokens(estimate, messages) <= budget || |SplitByTokenShare(estimate, messages, Finite(parts as real))| <= 1
  }

  /** The rest of a history after its first share, and its head. */
  lemma FirstShare(estimate: Estimator, messages: seq<Message>, parts: nat)
    requires |SplitByTokenShare(estimate, messages, Finite(parts as real))| > 1
    ensures var chunks := SplitByTokenShare(estimate, messages, Finite(parts as real));
      && chunks[0] != [] && chunks[0] + Flatten(chunks[1..]) == messages
      && Flatten(chunks[1..]) == messages[|chunks[0]|..]
      && SafeCut(messages, |chunks[0]|)
  {
    SplitIsSafePartition(estimate, messages, Finite(parts as real));
    var chunks := SplitByTokenShare(estimate, messages, Finite(parts as real));
    assert chunks[..1] == [chunks[0]];
    FlattenSingle(chunks[0]);
    assert SafeCut(messages, |Flatten(chunks[..1])|);
  }

  /** One round: what is dropped and what the repair leaves of the rest. */
  lemma RoundKeeps(dropped: seq<Message>, rest: seq<Message>, messages: seq<Message>)
    requires dropped != [] && dropped + rest == messages
    ensures var kept := RepairPairing(rest).0;
      && NonResults(messages) == NonResults(dropped) + NonResults(kept)
      && (kept != [] ==> !kept[0].ToolResult?)
      && (!messages[0].ToolResult? ==> |NonResults(kept)| < |NonResults(messages)|)
  {
    NonResultsAppend(dropped, rest);
    RepairKeepsConversation(rest);
    if !messages[0].ToolResult? {
      assert dropped[0] == messages[0];
    }
  }

  /** On a well-paired history a round drops the first share and nothing else. */
  lemma WellPairedRound(dropped: seq<Message>, rest: seq<Message>, messages: seq<Message>)
    requires dropped != [] && dropped + rest == messages && WellPaired(messages, {}) && SafeCut(messages, |dropped|)
    ensures RepairPairing(rest) == (rest, 0) && WellPaired(rest, {})
  {
    SafeCutKeepsPairing(messages, {}, |dropped|);
    assert messages[|dropped|..] == rest;
    WellPairedUnchanged(rest, {});
  }

  function HeadIsResult(messages: seq<Message>): nat
  {
    if messages != [] && messages[0].ToolResult? then 1 else 0
  }

  /** What pruning keeps from round to round: `gone` was dropped, `counted` is the number
      it reports, `paired` says that the history was well-paired at the start. */
  ghost predicate Progress(paired: bool, messages: seq<Message>, gone: seq<Message>, kept: seq<Message>, counted: nat)
  {
    && NonResults(gone) + NonResults(kept) == NonResults(messages)
    && counted >= |gone|
    && (paired ==> gone + kept == messages && counted == |gone| && WellPaired(kept, {}))
  }

  lemma RoundProgress(paired: bool, messages: seq<Message>, gone: seq<Message>, kept: seq<Message>, counted: nat,
                      dropped: seq<Message>, rest: seq<Message>, repaired: seq<Message>, orphans: nat)
    requires Progress(paired, messages, gone, kept, counted)
    requires dropped != [] && dropped + rest == kept && SafeCut(kept, |dropped|)
    requires RepairPairing(rest) == (repaired, orphans)
    ensures Progress(paired, messages, gone + dropped, repaired, counted + |dropped| + orphans)
    ensures HeadIsResult(repaired) == 0
    ensures HeadIsResult(kept) == 0 ==> |NonResults(repaired)| < |NonResults(kept)|
  {
    RoundKeeps(dropped, rest, kept);
    RoundConserves(messages, gone, kept, dropped, rest);
    if paired {
      PairedRound(messages, gone, kept, dropped, rest);
    }
  }

  lemma PairedRound(messages: seq<Message>, gone: seq<Message>, kept: seq<Message>, dropped: seq<Message>,
                    rest: seq<Message>)
    requires gone + kept == messages && WellPaired(kept, {})
    requires dropped != [] && dropped + rest == kept && SafeCut(kept, |dropped|)
    ensures RepairPairing(rest) == (rest, 0) && WellPaired(rest, {})
    ensures gone + dropped + rest == messages
  {
    WellPairedRound(dropped, rest, kept);
    assert gone + dropped + rest == gone + (dropped + rest);
  }

  lemma RoundConserves(messages: seq<Message>, gone: seq<Message>, kept: seq<Message>, dropped: seq<Message>,
                       rest: seq<Message>)
    requires NonResults(gone) + NonResults(kept) == NonResults(messages)
    requires dropped != [] && dropped + rest == kept
    ensures NonResults(gone + dropped) + NonResults(RepairPairing(rest).0) == NonResults(messages)
  {
    hide RepairPairing, NonResults;
    RoundKeeps(dropped, rest, kept);
    NonResultsAppend(gone, dropped);
    Collections.Regroup(NonResults(gone), NonResults(dropped), NonResults(RepairPairing(rest).0));
  }

  /** The repair takes out exactly the orphans it counts and adds nothing. */
  predicate OnlyDeletes(messages: seq<Message>)
  {
    var (repaired, orphans) := RepairPairing(messages);
    Subsequence(repaired, messages) && |repaired| + orphans == |messages|
  }

  /** In every round that pruning goes through, the repair only deletes. */
  ghost predicate RoundsOnlyDelete(estimate: Estimator, kept: seq<Message>, budget: nat, parts: nat)
    decreases HeadIsResult(kept), |NonResults(kept)|
  {
    Settled(estimate, kept, budget, parts) ||
    (FirstShare(estimate, kept, parts);
     var chunks := SplitByTokenShare(estimate, kept, Finite(parts as real));
     var rest := Flatten(chunks[1..]);
     RoundKeeps(chunks[0], rest, kept);
     OnlyDeletes(rest) && RoundsOnlyDelete(estimate, RepairPairing(rest).0, budget, parts))
  }

  /** What deleting rounds keep: `counted` messages are gone, the others follow in order. */
  ghost predicate Deleting(estimate: Estimator, messages: seq<Message>, gone: seq<Message>, kept: seq<Message>,
                           counted: nat, budget: nat, parts: nat)
  {
    && RoundsOnlyDelete(estimate, kept, budget, parts)
    && Subsequence(gone + kept, messages) && |kept| + counted == |messages|
  }

  lemma OrderedRound(messages: seq<Message>, gone: seq<Message>, dropped: seq<Message>, rest: seq<Message>,
                     repaired: seq<Message>)
    requires Subsequence(gone + (dropped + rest), messages) && Subsequence(repaired, rest)
    ensures Subsequence(gone + dropped + repaired, messages)
  {
    hide Subsequence;
    SubsequenceBehind(gone + dropped, repaired, rest);
    assert gone + dropped + rest == gone + (dropped + rest);
    SubsequenceTransitive(gone + dropped + repaired, gone + (dropped + rest), messages);
  }

  lemma DeletingRound(estimate: Estimator, messages: seq<Message>, gone: seq<Message>, kept: seq<Message>, counted: nat,
                      budget: nat, parts: nat)
    requires Deleting(estimate, messages, gone, kept, counted, budget, parts) && !Settled(estimate, kept, budget, parts)
    ensures var chunks := SplitByTokenShare(estimate, kept, Finite(parts as real));
      var (repaired, orphans) := RepairPairing(Flatten(chunks[1..]));
      Deleting(estimate, messages, gone + chunks[0], repaired, counted + |chunks[0]| + orphans, budget, parts)
  {
    hide RepairPairing, SplitByTokenShare, Subsequence, Flatten;
    FirstShare(estimate, kept, parts);
    var chunks := SplitByTokenShare(estimate, kept, Finite(parts as real));
    var rest := Flatten(chunks[1..]);
    OrderedRound(messages, gone, chunks[0], rest, RepairPairing(rest).0);
  }

  /** Over the rounds that pruning goes through, the results put in less the duplicates
      taken out by the repair. */
  ghost function Excess(estimate: Estimator, kept: seq<Message>, budget: nat, parts: nat): int
    decreases HeadIsResult(kept), |NonResults(kept)|
  {
    if Settled(estimate, kept, budget, parts) then 0
    else
      FirstShare(estimate, kept, parts);
      var chunks := SplitByTokenShare(estimate, kept, Finite(parts as real));
      var rest := Flatten(chunks[1..]);
      RoundKeeps(chunks[0], rest, kept);
      Inserted(rest) - Duplicates(rest) + Excess(estimate, RepairPairing(rest).0, budget, parts)
  }

  /** `counted` messages are gone and `kept` is left: up to what the repair put in and took
      out, these are the messages of the history. */
  ghost predicate Balanced(estimate: Estimator, messages: seq<Message>, kept: seq<Message>, counted: nat,
                           budget: nat, parts: nat)
  {
    |kept| + counted + Excess(estimate, kept, budget, parts)
      == |messages| + Excess(estimate, messages, budget, parts)
  }

  lemma BalancedRound(estimate: Estimator, messages: seq<Message>, kept: seq<Message>, counted: nat, budget: nat,
                      parts: nat)
    requires Balanced(estimate, messages, kept, counted, budget, parts) && !Settled(estimate, kept, budget, parts)
    ensures var chunks := SplitByTokenShare(estimate, kept, Finite(parts as real));
      var (repaired, orphans) := RepairPairing(Flatten(chunks[1..]));
      Balanced(estimate, messages, repaired, counted + |chunks[0]| + orphans, budget, parts)
  {
    hide RepairPairing, SplitByTokenShare, Flatten, Duplicates, Inserted;
    FirstShare(estimate, kept, parts);
    var chunks := SplitByTokenShare(estimate, kept, Finite(parts as real));
    RepairBalance(Flatten(chunks[1..]));
  }

  /** Where pruning gets to: what was dropped, in how many shares, what is kept, and the number
      of messages it counts as dropped. */
  datatype Rounds = Rounds(gone: seq<Message>, kept: seq<Message>, counted: nat, shares: nat)

  ghost function AllRounds(estimate: Estimator, r: Rounds, budget: nat, parts: nat): Rounds
    decreases HeadIsResult(r.kept), |NonResults(r.kept)|
  {
    if Settled(estimate, r.kept, budget, parts) then r
    else
      FirstShare(estimate, r.kept, parts);
      var chunks := SplitByTokenShare(estimate, r.kept, Finite(parts as real));
      var rest := Flatten(chunks[1..]);
      RoundKeeps(chunks[0], rest, r.kept);
      var (repaired, orphans) := RepairPairing(rest);
      var next := Rounds(r.gone + chunks[0], repaired, r.counted + |chunks[0]| + orphans, r.shares + 1);
      AllRounds(estimate, next, budget, parts)
  }

  lemma OneRound(estimate: Estimator, r: Rounds, budget: nat, parts: nat)
    ensures Settled(estimate, r.kept, budget, parts) ==> AllRounds(estimate, r, budget, parts) == r
    ensures !Settled(estimate, r.kept, budget, parts) ==>
      var chunks := SplitByTokenShare(estimate, r.kept, Finite(parts as real));
      var (repaired, orphans) := RepairPairing(Flatten(chunks[1..]));
      var next := Rounds(r.gone + chunks[0], repaired, r.counted + |chunks[0]| + orphans, r.shares + 1);
      AllRounds(estimate, r, budget, parts) == AllRounds(estimate, next, budget, parts)
  {
    hide RepairPairing, SplitByTokenShare, Flatten, Tokens;
  }

  /** What holds between rounds. */
  ghost predicate RoundsOk(estimate: Estimator, messages: seq<Message>, gone: seq<Message>, kept: seq<Message>,
                           counted: nat, shares: nat, budget: nat, parts: nat)
  {
    && Progress(WellPaired(messages, {}), messages, gone, kept, counted)
    && (RoundsOnlyDelete(estimate, messages, budget, parts) ==>
          Deleting(estimate, messages, gone, kept, counted, budget, parts))
    && Balanced(estimate, messages, kept, counted, budget, parts)
    && AllRounds(estimate, Rounds(gone, kept, counted, shares), budget, parts)
       == AllRounds(estimate, Rounds([], messages, 0, 0), budget, parts)
  }

  lemma RoundsBegin(estimate: Estimator, messages: seq<Message>, budget: nat, parts: nat)
    ensures RoundsOk(estimate, messages, [], messages, 0, 0, budget, parts) && Tokens(estimate, []) == 0
  {
    assert [] + messages == messages;
    SubsequenceSelf(messages);
  }

  lemma RoundOk(estimate: Estimator, messages: seq<Message>, gone: seq<Message>, kept: seq<Message>, counted: nat,
                shares: nat, budget: nat, parts: nat)
    requires RoundsOk(estimate, messages, gone, kept, counted, shares, budget, parts)
    requires !Settled(estimate, kept, budget, parts)
    ensures var chunks := SplitByTokenShare(estimate, kept, Finite(parts as real));
      var (repaired, orphans) := RepairPairing(Flatten(chunks[1..]));
      && chunks[0] != []
      && RoundsOk(estimate, messages, gone + chunks[0], repaired, counted + |chunks[0]| + orphans, shares + 1,
                  budget, parts)
      && HeadIsResult(repaired) == 0
      && (HeadIsResult(kept) == 0 ==> |NonResults(repaired)| < |NonResults(kept)|)
  {
    hide RepairPairing, SplitByTokenShare, Flatten, Progress, Deleting, RoundsOnlyDelete, Balanced, AllRounds;
    OneRound(estimate, Rounds(gone, kept, counted, shares), budget, parts);
    FirstShare(estimate, kept, parts);
    BalancedRound(estimate, messages, kept, counted, budget, parts);
    var chunks := SplitByTokenShare(estimate, kept, Finite(parts as real));
    var rest := Flatten(chunks[1..]);
    RoundProgress(WellPaired(messages, {}), messages, gone, kept, counted, chunks[0], rest,
                  RepairPairing(rest).0, RepairPairing(rest).1);
    if RoundsOnlyDelete(estimate, messages, budget, parts) {
      DeletingRound(estimate, messages, gone, kept, counted, budget, parts);
    }
  }

  lemma RoundsEnd(estimate: Estimator, messages: seq<Message>, gone: seq<Message>, kept: seq<Message>,
                  counted: nat, shares: nat, budget: nat, parts: nat)
    requires RoundsOk(estimate, messages, gone, kept, counted, shares, budget, parts)
    ensures NonResults(gone) + NonResults(kept) == NonResults(messages) && counted >= |gone|
    ensures RoundsOnlyDelete(estimate, messages, budget, parts) ==>
              Subsequence(gone + kept, messages) && |kept| + counted == |messages|
    ensures WellPaired(messages, {}) ==>
              gone + kept == messages && counted + |kept| == |messages| && WellPaired(kept, {})
    ensures kept == [] ==> Settled(estimate, kept, budget, parts)
    ensures Settled(estimate, kept, budget, parts) ==>
              && |kept| + counted == |messages| + Excess(estimate, messages, budget, parts)
              && Rounds(gone, kept, counted, shares) == AllRounds(estimate, Rounds([], messages, 0, 0), budget, parts)
  {
    hide RoundsOnlyDelete, Subsequence, WellPaired, AllRounds;
    OneRound(estimate, Rounds(gone, kept, counted, shares), budget, parts);
  }

  /** `kept` is what the repair left of the history `last` without its first share, the end of
      `gone`; and `last` was over budget. */
  ghost predicate WasNeeded(estimate: Estimator, last: seq<Message>, kept: seq<Message>, gone: seq<Message>,
                            budget: nat, parts: nat)
  {
    && Tokens(estimate, last) > budget
    && var chunks := SplitByTokenShare(estimate, last, Finite(parts as real));
    && |chunks| > 1 && |chunks[0]| <= |gone| && gone[|gone| - |chunks[0]|..] == chunks[0]
    && kept == RepairPairing(Flatten(chunks[1..])).0
  }

  /** Every message but tool results is either dropped or kept, in order; the totals are
      those of the dropped list; pruning goes on until the history fits or cannot be split, and
      the last share was dropped from one that did not fit. Kept and dropped
      messages number as many as the history and what the repairs put in less the duplicates
      they took out: the count is exact if and only if these are as many. As long as the
      repair only deletes, order is kept as well; on a well-paired history the kept messages
      are the rest of the history after the dropped ones. */
  method PruneHistoryForContextShare(estimate: Estimator, messages: seq<Message>, maxContextTokens: real,
                                     maxHistoryShare: real, parts: Number) returns (r: Pruned)
    ensures r.budgetTokens == Budget(maxContextTokens, maxHistoryShare)
    ensures NonResults(r.droppedMessagesList) + NonResults(r.messages) == NonResults(messages)
    ensures Tokens(estimate, r.messages) <= r.budgetTokens
         || |SplitByTokenShare(estimate, r.messages, Finite(NormalizeParts(parts, |messages|) as real))| <= 1
    ensures r.droppedTokens == Tokens(estimate, r.droppedMessagesList)
    ensures r.keptTokens == Tokens(estimate, r.messages)
    ensures r.droppedMessages >= |r.droppedMessagesList| >= r.droppedChunks
    ensures r.droppedChunks == 0 ==> r.messages == messages && r.droppedMessagesList == []
    ensures r.droppedChunks > 0 ==>
              exists last :: WasNeeded(estimate, last, r.messages, r.droppedMessagesList, r.budgetTokens,
                                       NormalizeParts(parts, |messages|))
    ensures Rounds(r.droppedMessagesList, r.messages, r.droppedMessages, r.droppedChunks)
         == AllRounds(estimate, Rounds([], messages, 0, 0), r.budgetTokens, NormalizeParts(parts, |messages|))
    ensures |r.messages| + r.droppedMessages
         == |messages| + Excess(estimate, messages, r.budgetTokens, NormalizeParts(parts, |messages|))
    ensures RoundsOnlyDelete(estimate, messages, r.budgetTokens, NormalizeParts(parts, |messages|)) ==>
              Subsequence(r.droppedMessagesList + r.messages, messages)
              && |r.messages| + r.droppedMessages == |messages|
    ensures WellPaired(messages, {}) ==>
              r.droppedMessagesList + r.messages == messages
              && r.droppedMessages + |r.messages| == |messages|
              && WellPaired(r.messages, {})
  {
    hide RoundsOk, RepairPairing, SplitByTokenShare, Flatten, HeadIsResult, NonResults, Subsequence, WellPaired,
         RoundsOnlyDelete, Excess, Budget, Tokens, AllRounds;
    var budgetTokens := Budget(maxContextTokens, maxHistoryShare);
    var keptMessages := messages;
    var allDroppedMessages: seq<Message> := [];
    var droppedChunks: nat, droppedMessages: nat, droppedTokens: nat := 0, 0, 0;
    var normalized := NormalizeParts(parts, |messages|);
    ghost var last := messages;
    RoundsBegin(estimate, messages, budgetTokens, normalized);
    while |keptMessages| > 0 && Tokens(estimate, keptMessages) > budgetTokens
      invariant RoundsOk(estimate, messages, allDroppedMessages, keptMessages, droppedMessages, droppedChunks,
                         budgetTokens, normalized)
      invariant droppedChunks > 0 ==>
                  WasNeeded(estimate, last, keptMessages, allDroppedMessages, budgetTokens, normalized)
      invariant droppedTokens == Tokens(estimate, allDroppedMessages)
      invariant |allDroppedMessages| >= droppedChunks
      invariant droppedChunks == 0 ==> keptMessages == messages && allDroppedMessages == []
      decreases HeadIsResult(keptMessages), |NonResults(keptMessages)|
    {
      var chunks := SplitMessagesByTokenShare(estimate, keptMessages, Finite(normalized as real));
      if |chunks| <= 1 {
        break;
      }
      RoundOk(estimate, messages, allDroppedMessages, keptMessages, droppedMessages, droppedChunks, budgetTokens,
              normalized);
      last := keptMessages;
      var dropped := chunks[0];
      var flatRest := Flatten(chunks[1..]);
      var (repairedKept, orphanedCount) := RepairPairing(flatRest);
      TokensAppend(estimate, allDroppedMessages, dropped);
      droppedChunks := droppedChunks + 1;
      droppedMessages := droppedMessages + |dropped| + orphanedCount;
      droppedTokens := droppedTokens + Tokens(estimate, dropped);
      allDroppedMessages := allDroppedMessages + dropped;
      keptMessages := repairedKept;
    }
    RoundsEnd(estimate, messages, allDroppedMessages, keptMessages, droppedMessages, droppedChunks, budgetTokens,
              normalized);
    r := Pruned(keptMessages, allDroppedMessages, droppedChunks, droppedMessages, droppedTokens,
                Tokens(estimate, keptMessages), budgetTokens);
  }

  // ----- a history that pruning miscounts -----

  const QUESTION := User("u")

  function OnlyUsers(m: Message): nat { if m.User? then 10 else 0 }

  /** A question and a call without a result, in two parts and a budget of five: the
      question is dropped and the call is given a result, so of two messages one is counted
      as dropped and two are kept. */
  lemma PruningMiscounts()
    ensures var messages := [QUESTION, UNANSWERED];
      && !Settled(OnlyUsers, messages, 5, 2) && NormalizeParts(Finite(2.0), |messages|) == 2
      && Excess(OnlyUsers, messages, 5, 2) == 1
      && AllRounds(OnlyUsers, Rounds([], messages, 0, 0), 5, 2)
         == Rounds([QUESTION], [UNANSWERED, MissingResult("x")], 1, 1)
  {
    hide SplitByTokenShare, RepairPairing, NormalizeParts, Inserted, Duplicates;
    var messages := [QUESTION, UNANSWERED];
    SplitOfTwo();
    assert [[QUESTION], [UNANSWERED]][1..] == [[UNANSWERED]];
    FlattenSingle([UNANSWERED]);
    UnansweredCounts();
    var kept := [UNANSWERED, MissingResult("x")];
    assert Tokens(OnlyUsers, kept) == 0 by {
      assert kept[1..] == [MissingResult("x")] && [MissingResult("x")][1..] == [];
    }
    assert Excess(OnlyUsers, kept, 5, 2) == 0;
    hide AllRounds;
    OneRound(OnlyUsers, Rounds([], messages, 0, 0), 5, 2);
    assert [] + [QUESTION] == [QUESTION];
    OneRound(OnlyUsers, Rounds([QUESTION], kept, 1, 1), 5, 2);
  }

  lemma SplitOfTwo()
    ensures var messages := [QUESTION, UNANSWERED];
      && Tokens(OnlyUsers, messages) == 10
      && SplitByTokenShare(OnlyUsers, messages, Finite(2.0)) == [[QUESTION], [UNANSWERED]]
      && NormalizeParts(Finite(2.0), 2) == 2
  {
    var messages := [QUESTION, UNANSWERED];
    assert messages[1..] == [UNANSWERED] && [UNANSWERED][1..] == [];
    assert Tokens(OnlyUsers, [UNANSWERED]) == 0;
    var sh := Share(OnlyUsers, 2, 5.0);
    var one := SplitStep(sh, START, QUESTION);
    assert [] + [QUESTION] == [QUESTION];
    assert one == Split([], [QUESTION], 10, {}, None);
    var two := SplitStep(sh, one, UNANSWERED);
    assert [] + [[QUESTION]] == [[QUESTION]] && [] + [UNANSWERED] == [UNANSWERED];
    assert two == Split([[QUESTION]], [UNANSWERED], 0, {"x"}, Some(0));
    assert SplitAll(sh, START, messages) == two by {
      assert SplitAll(sh, one, [UNANSWERED]) == SplitAll(sh, two, []);
    }
    assert FinishSplit(sh, two) == [[QUESTION], [UNANSWERED]];
  }
}
