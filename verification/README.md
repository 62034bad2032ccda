# Verified models of the agent runtime

This project models the parts of the repository where state, interleaving or text handling is
subtle enough that reading one function does not settle what it does, and proves what they keep.
`dafny verify dfyconfig.toml` checks everything.

* **The ACP gateway bridge** (`src/acp/translator.ts`). Prompts in flight, gateway outages numbered
  by generation, a grace timer, and a reconcile sweep that awaits the gateway once per prompt. The
  synchronous stretches between two awaits are functions on the bridge's state (`GatewayBridge`) and
  methods of `GatewayAgent.AcpGatewayAgent` that change the agent and its prompt objects in place;
  every method is proved to do to the state what its function says. `BridgeProtocol` lets the
  suspended pieces of work (sends, streams, finishes, cancels, sweeps with a position in their
  snapshot) resume in any order, mixed with prompts, cancels, chat events, disconnects, reconnects
  and the timer. `BridgeInvariant` and `BridgeProtocol` hold the inductive invariant; the results over
  every run are in `BridgeTheorems` (outages and deadlines), `BridgeAccounting` (where every prompt
  is), `BridgeAbandonment` (which prompts can still be settled), `BridgeTurns` (sessions whose prompts
  take turns), `BridgeProvenance` (the event behind every settlement, and the outcome it gives),
  `BridgeResponses` (what every event starts; what acknowledgements, marks and outages are) and
  `BridgeDeadlines` (which prompts have a deadline to come).
* **The session table** (`src/acp/session.ts`): `Sessions` is the table as a value with its laws,
  `SessionStore` the mutable objects that refine it, `SessionHistory` what a history of calls leaves in
  the table. `BridgeSessions` puts the table and the bridge in one state, with the calls the bridge makes
  of it, and `BridgeOrphans` follows the two over every run.
* **Forwarding growing texts** (`src/acp/translator.ts`): `SnapshotText`.
* **Compaction** (`src/agents/compaction.ts`): greedy chunking (`Chunking`), splitting without
  parting a tool call from its result (`TokenShare`) and how the chunks keep to their target
  (`TokenTargets`), and pruning (`Pruning`) together with the real pairing repair it calls (`Repair`),
  the balance of what the repair takes out and puts in (`RepairCounts`), and what then stands behind
  every call (`RepairTurns`).
* **apply_patch** (`src/agents/apply-patch-update.ts`, `src/agents/apply-patch.ts`): the four-tier
  line search (`LineSeek`), in-place splicing against simultaneous substitution (`Splicing`), the
  location of chunks (`PatchLocate`) and where that is (`PatchContext`), the exact condition for their
  replacements to be in order (`PatchOrder`), the update itself (`PatchUpdate`, `PatchUpdateFacts`), the parser as functions
  (`PatchParse`) and as the loops it is (`PatchParser`), patches as text (`PatchText`), the print-parse
  round trip (`PatchRoundTrip`), the hunks that can be written (`PatchCanon`), the proof that the
  parser returns no others (`PatchImage`), its errors (`PatchErrors`), and the layout it overlooks
  (`PatchLayout`).
* **Process output** (`src/agents/bash-process-registry.ts`, `src/agents/bash-tools.shared.ts`):
  `OutputHistory` says what was written and what may be kept, `OutputBuffers` is the session object
  with its capped chunk buffers, which always hold exactly that.
* **Shell scanners** (`src/agents/bash-tools.exec.ts`): one quote automaton (`ShellQuotes`), the two
  loops (`ShellScan`).
* **The Anthropic event fold** (`src/agents/anthropic-transport-stream.ts`): `AnthropicFold`,
  `AnthropicStream`.
* **The child relay** (`src/agents/acp-spawn-parent-stream.ts`): `RelayText`, `RelayProtocol`,
  what it tells of the child's text (`RelayTold`) and everything else it says (`RelaySignals`),
  `SpawnRelay`.
* **Tool locations** (`src/acp/event-mapper.ts`): `ToolLocations`.

`Collections`, `Text` and `Messages` hold what the others share.

## What the proofs show about the code

Where the code does not have a property one might expect, the exact condition or a concrete run is
proved:

* A prompt in the map can lose its entry to another prompt of its session without being settled. The
  steps that do this are exactly a new prompt's arrival, and the end of work about an earlier prompt: a
  send that fails for good, a delivered final message, an answered abort (`BridgeAccounting.LostExactly`).
  No prompt is lost in any other way (`BridgeAccounting.NoPromptLost`).
* A prompt can still be settled in some continuation if and only if it is in the map or suspended work
  is about it (`BridgeAbandonment.CanSettleExactly`). A prompt taken while no work is about it is never
  settled (`BridgeAbandonment.TakenPromptNeverSettles`); a second prompt does this to the first
  (`BridgeTurns.SupersededExample` is such a run), and so does the late answer to an abort even to a
  client that waits for each prompt to be settled before it starts the next
  (`BridgeTurns.LateAbortExample`).
* If a prompt arrives only on sessions that have no entry and no send, stream or cancel at work, no
  prompt is lost (`BridgeTurns.PromptsThatTakeTurnsAreKept`).
* A deadline sweep that returns clears the timer even if a newer prompt armed it. A prompt in the map
  that carries the latest outage, whether it lasts or is over, loses its last deadline in exactly this
  way: such a sweep returns, and no other deadline sweep at work has the prompt before it
  (`BridgeDeadlines.OnlyAReturningSweepStrandsPrompts`). A sweep that a reconnect started
  never does it. `BridgeDeadlines.StrandedPromptExample` is such a run; in
  `BridgeDeadlines.StrandedBesideASweepExample` a second sweep is at work, on a snapshot older than the
  prompt, and does not help.
* The late answer to an abort takes another prompt's entry but not its active run. This is exactly when
  a session is left with an active run that is not its entry (`BridgeOrphans.OnlyALateAbortUnlinks`). It
  stays busy, and is neither reaped nor evicted, exactly until somebody prompts or cancels on it or work
  about a prompt of it ends (`BridgeOrphans.OrphansStayBusy`). In
  `BridgeOrphans.SessionLeftBusyExample` no other session can be created any more.
* A prompt that is refused for its size has already cancelled what its session was running, which stays
  in the map: exactly this leaves a prompt in the map that is neither active nor being cancelled
  (`BridgeOrphans.OnlyARefusalUncovers`).
* An idle session whose id is the empty string cannot be evicted, so a full table can refuse a session
  although one is idle (`Sessions.EmptyIdBlocksEviction`, exact condition in
  `Sessions.CreationFailsExactly`).
* The number of dropped messages that pruning reports leaves out the duplicates the pairing repair takes
  out and the results it puts in. Kept and dropped messages number as many as the history plus
  the results put in less the duplicates taken out, over all rounds (`Pruning.PruneHistoryForContextShare`,
  from `RepairCounts.RepairBalance`): the count is right if and only if these are as many. It is off by
  one on the two messages of `Pruning.PruningMiscounts`; and it can be right although the repair does
  not only delete (`RepairCounts.DuplicateMakesUpForMissing`).
* An end-of-file chunk ignores the cursor and can overlap earlier replacements
  (`PatchUpdateFacts.EndOfFileChunkCanOverlap`), and an insertion before a trailing blank line can be
  lost (`PatchUpdateFacts.InsertionBeforeBlankLineCanBeLost`). For any chunks, the replacements are in
  order if and only if every pair with one of these two kinds in it fits
  (`PatchOrder.ReplacementsInOrderExactly`; `EndOfFileFits` and `InsertionFits` say what fitting is);
  two end-of-file chunks that replace lines never do (`PatchOrder.TwoEndOfFileChunksOverlap`).
* An update that changes no line can still change the text
  (`PatchUpdateFacts.UnchangedLinesGiveSameTextExactly`).
* The parser returns given hunks for some text if and only if all of them are printable: paths on one
  line and not ending in white space, contents that are empty or end in a newline, at least one chunk
  and a line in each (`PatchImage.ParsedExactly`). A line may end in a carriage return, since a line
  break takes only one (`PatchImage.CarriageReturnExample`). Printing printable hunks, with or without
  carriage returns, and parsing the patch gives them back (`PatchCanon.ParseOfPrintedHunks`).
* The error of a line that cannot stand in a chunk names that line, unless it is the first of a chunk
  without its marker: then it names the line behind it (`PatchErrors.ErrorsNameTheirLine`,
  `PatchErrors.StrayLineIsNamedLate`).
* An Anthropic event without an index matches blocks that have already ended, because their index was
  deleted; this is exactly when updates come out of order (`AnthropicFold.InOrderExactly`).
* What a relay shows of the child's text is complete, but for white space, unless more than 220
  characters were flushed at once (`RelayTold.NothingVisibleIsLost`).
* A relay without a flush delay can keep text with nothing scheduled
  (`RelayProtocol.WithoutDelayTextMayWait`).

## Model

| member | source | states |
|---|---|---|
| GatewayAgent.AcpGatewayAgent.EnterPrompt | src/acp/translator.ts:712-723 | a fresh prompt object takes its session's place in the map carrying the active outage, and the grace timer is armed if the gateway is down and none is |
| GatewayAgent.AcpGatewayAgent.Prompt | src/acp/translator.ts:664-723 | on a session of the table whatever runs is cancelled, the new run is made active, and the prompt enters the map under the session's key; an unknown session changes nothing |
| GatewayAgent.AcpGatewayAgent.Cancel | src/acp/translator.ts:770-783 | cancelling touches the session, cancels its run in the table, and reads its entry from the map |
| GatewayAgent.AcpGatewayAgent.SendSucceeded | src/acp/translator.ts:736-739 | an acknowledged send marks the prompt only if it is still its session's entry |
| GatewayAgent.AcpGatewayAgent.SendFailedFor | src/acp/translator.ts:756-766 | a closed gateway leaves a prompt that is still in the map alone; every other failure removes the session's entry, whichever prompt it is, clears the session's active run in the table and rejects this prompt |
| GatewayAgent.AcpGatewayAgent.AbortReturned | src/acp/translator.ts:794-800 | after the abort the session's entry is removed and the prompt read before the await is resolved as cancelled |
| GatewayAgent.AcpGatewayAgent.FinishPrompt | src/acp/translator.ts:1022-1026 | finishing removes the session's entry, clears its active run in the table and drops the timer when the map is empty |
| GatewayAgent.AcpGatewayAgent.ResolvePrompt | src/acp/translator.ts:1035 | after its await, finishing resolves the prompt object it was called with |
| GatewayAgent.AcpGatewayAgent.FindPendingBySessionKey | src/acp/translator.ts:1038-1049 | the first entry in map order with this session key and, if one is named, this run |
| GatewayAgent.AcpGatewayAgent.HandleGatewayDisconnect | src/acp/translator.ts:466-481 | a new generation becomes active, exactly the prompts in the map are marked with it, and the timer is armed for it unless the map is empty |
| GatewayAgent.AcpGatewayAgent.MarkPending | src/acp/translator.ts:477-479 | the loop marks every prompt in the map and no other |
| GatewayAgent.AcpGatewayAgent.HandleGatewayReconnect | src/acp/translator.ts:456-464 | the outage ends and is handed to the sweep |
| GatewayAgent.AcpGatewayAgent.RejectPendingPrompt | src/acp/translator.ts:1068-1079 | only the very prompt object in the map is removed and rejected, and its session's active run cleared in the table |
| GatewayAgent.AcpGatewayAgent.ClearPendingDisconnectState | src/acp/translator.ts:1081-1089 | the prompt forgets the outage only if it is this one |
| GatewayAgent.AcpGatewayAgent.DeadlineExpired | src/acp/translator.ts:1184-1197 | a deadline rejects a prompt that still carries the outage and was not accepted or whose outage lasts, else clears its mark |
| GatewayAgent.AcpGatewayAgent.CopyEntries | src/acp/translator.ts:1113 | the sweep's snapshot is the map's entries in order |
| GatewayAgent.AcpGatewayAgent.AdvanceSweep | src/acp/translator.ts:1115-1134 | the sweep goes on to the next entry that is still in the map under its generation, or ends and clears its generation's timer unless told to keep it |
| BridgeInvariant.StartPromptKeeps | src/acp/translator.ts:712-723 | starting a prompt keeps the bridge's invariant and leaves the other sessions' prompts in the map |
| BridgeInvariant.DisconnectKeeps | src/acp/translator.ts:466-481 | a disconnect keeps the invariant and moves no prompt in or out of the map |
| BridgeInvariant.AtDeadlineKeeps | src/acp/translator.ts:1081-1100 | the deadline takes a prompt out of the map if its outage lasts, and no other prompt |
| BridgeInvariant.ClearDisconnectStateKeeps | src/acp/translator.ts:1081-1089 | clearing a mark keeps the invariant unless it is the mark of a prompt in the map for the outage that lasts |
| BridgeInvariant.EndSweepKeeps | src/acp/translator.ts:1132-1134 | the end of a sweep keeps the invariant and the map |
| BridgeProtocol.StepKeeps | src/acp/translator.ts:456-1200 | the invariant is inductive over every step of every interleaving, nothing is forgotten, no prompt returns to the map, no outage comes back |
| BridgeTheorems.RunKeepsInv | src/acp/translator.ts:456-1200 | the invariant holds in every state of every run |
| BridgeTheorems.ReachableStep | src/acp/translator.ts:456-1200 | reachable states are closed under enabled steps |
| BridgeTheorems.PendingPromptsCarryTheOutage | src/acp/translator.ts:466-481 | in every reachable state the active outage has the current generation, every prompt in the map carries exactly it, contexts of one generation are one, and an armed timer is for it |
| BridgeTheorems.ArrivalsOnlySpawn | src/acp/translator.ts:456-1200 | what arrives from outside settles no prompt and touches no suspended work |
| BridgeTheorems.WaitRejects | src/acp/translator.ts:1157-1198 | a reply to a sweep's question settles at most the prompt asked about, if it is in the map and carries the outage |
| BridgeTheorems.DeadlineStep | src/acp/translator.ts:1137-1200 | any step adds at most one deadline rejection, of a prompt in the map for the outage it carries, and only during that outage if its send was accepted |
| BridgeTheorems.AcceptedPromptsAreRejectedOnlyInTheirOutage | src/acp/translator.ts:1091-1100 | a prompt whose send was accepted is rejected by a deadline only while the gateway is in that same outage, never after a reconnect or under a later generation |
| BridgeTheorems.OwnStepTracks | src/acp/translator.ts:1115-1134 | a sweep's own step keeps its snapshot, or returns with every entry out of the map while its outage lasts |
| BridgeTheorems.RunTracks | src/acp/translator.ts:1102-1135 | over any run a deadline sweep stays the same sweep until it returns with its snapshot out of the map |
| BridgeTheorems.DeadlineSweepClearsTheMap | src/acp/translator.ts:1059-1135 | if the outage lasts from the timer's firing until its sweep has returned, no prompt that was in the map at the firing is still there, whatever interleaved |
| BridgeProvenance.SettlementsAreBrought | src/acp/translator.ts:756-1198 | behind every settlement is an earlier event of the run that determines its outcome: a terminal chat event that means the prompt in the map, which is resolved as its state says; the gateway's answer that the run a sweep asked about has ended, which ends its turn; a cancel of its session, which cancels it; the failure of its send; or a deadline's unanswered question, with the send not acknowledged or the outage not over, which rejects it with the reason of that outage |
| BridgeProvenance.NamedRunIsTheOneSettled | src/acp/translator.ts:917-965 | a settlement for a chat event or wait reply naming a run is of that run, an earlier event of the run named it, or answered about it, while it was in the map, and the prompt is resolved as that event says |
| BridgeProvenance.FindsTheFirst | src/acp/translator.ts:1038-1049 | a chat event finds exactly the prompt in the oldest entry with its session key and, if it names one, its run |
| BridgeResponses.WhatIsBroughtIsUnderWay | src/acp/translator.ts:756-1198 | the converse: whatever settlement an event brings is made in the same step or left to suspended work that ends by making it |
| BridgeResponses.PurposesAreFulfilled | src/acp/translator.ts:917-1036 | suspended work with a purpose, resumed, makes its settlement; a stream first goes on to finish its prompt if the message was delivered, and is given up otherwise |
| BridgeResponses.MessageComesFirst | src/acp/translator.ts:935-952 | the prompt a terminal event means leaves the map at once, unless a final message has to be delivered first |
| BridgeResponses.OtherSendsAreHarmless | src/acp/translator.ts:740-759 | a send refused for its provenance is tried again without it, once; one that found the gateway closed leaves its prompt to the disconnect; neither settles anything |
| BridgeResponses.StepNotesExactly | src/acp/translator.ts:466-481 | a step acknowledges, marks and unmarks exactly the prompts it must: the one whose send is acknowledged while it is in the map, all in the map when the gateway goes down, and the one a deadline spares |
| BridgeResponses.AcknowledgedExactly | src/acp/translator.ts:736-739 | over every run a prompt counts as acknowledged if and only if its send was acknowledged while it was in the map |
| BridgeResponses.DownExactly | src/acp/translator.ts:456-481 | over every run the gateway is taken to be down exactly if it went down and has not come up since, with the reason it gave; generations count the outages |
| BridgeAccounting.LostExactly | src/acp/translator.ts:712-800 | a step takes a prompt out of the map unsettled and unheld if and only if it is another prompt's arrival on its session, or the end of a failed send, a delivered stream or an answered abort of another prompt of its session |
| BridgeAccounting.StepAccounts | src/acp/translator.ts:712-1200 | a prompt that is in the map, settled or held by work that will settle it is so after every step but those that take its entry for another prompt of its session |
| BridgeAccounting.NoPromptLost | src/acp/translator.ts:712-1200 | at every moment of every run every prompt started is in the map, settled, or held by work that ends by settling it, unless an earlier step took its entry for another prompt of its session |
| BridgeAbandonment.AbandonedForGood | src/acp/translator.ts:712-1200 | a prompt out of the map that no suspended work is about is never settled |
| BridgeAbandonment.TakenPromptNeverSettles | src/acp/translator.ts:712-800 | a prompt whose entry is taken while no work is about it is never settled in any continuation |
| BridgeAbandonment.SupersededPromptNeverSettles | src/acp/translator.ts:713-720 | a prompt whose entry a second prompt overwrites while no work is about it is never settled in any continuation |
| BridgeAbandonment.CanSettleExactly | src/acp/translator.ts:712-1200 | in a reachable state some continuation settles a prompt if and only if it is in the map or suspended work is about it |
| BridgeTurns.PromptsThatTakeTurnsAreKept | src/acp/translator.ts:712-1200 | if prompts arrive only on sessions without an entry and without a send, stream or cancel at work, then at every moment every prompt is in the map, settled or held by work that settles it |
| BridgeTurns.SupersededExample | src/acp/translator.ts:713-720 | a reachable run in which a second prompt takes the entry of the first, which is then abandoned and unsettled |
| BridgeTurns.LateAbortExample | src/acp/translator.ts:794-800 | a reachable run in which the first prompt is settled before the second arrives, and the late answer to its abort leaves the second abandoned and unsettled |
| BridgeDeadlines.OnlyAReturningSweepStrandsPrompts | src/acp/translator.ts:1132-1134 | a prompt in the map that carries the latest outage, in it or after it, and has an armed timer or a deadline sweep with it still before it keeps having one in every step but the return of a deadline sweep while no other has the prompt before it, and in that step it loses it |
| BridgeDeadlines.PromptsHaveDeadlines | src/acp/translator.ts:1052-1135 | in every state of every run every prompt in the map that carries the latest outage has an armed timer or a deadline sweep that has it before it, unless a returning sweep has stranded it |
| BridgeDeadlines.ReconnectSweepsMind | src/acp/translator.ts:1115-1134 | over every run a sweep that a reconnect started keeps the timer or still has every prompt before it that carries its outage |
| BridgeDeadlines.ReconnectAsks | src/acp/translator.ts:456-464 | when the gateway comes up a sweep starts that has every prompt in the map before it |
| BridgeDeadlines.StrandedPromptExample | src/acp/translator.ts:1132-1134 | a reachable run in which a prompt started during a sweep loses its timer to that sweep |
| BridgeDeadlines.StrandedBesideASweepExample | src/acp/translator.ts:1113-1134 | a reachable run in which a prompt loses its timer to a returning sweep while another deadline sweep, of an older snapshot, is at work |
| BridgeSessions.MapAfter | src/acp/translator.ts:712-1200 | a step other than a prompt's arrival takes from the map at most the entry of the session of the prompt it finishes, fails, rejects or answers the abort of |
| BridgeSessions.StoreAfter | src/acp/translator.ts:665-1079 | a bridge step changes the active run of at most one session of the table: to the prompt that arrives, or to none for a cancel and for a prompt that is finished, failed or rejected |
| BridgeSessions.AdvanceKeeps | src/acp/translator.ts:665-1079 | the combined invariant is kept; active runs stay entries in every step but an abort's answer on a session with an active run; entries stay active or being cancelled in every step but a refused prompt on a session whose entry is not being cancelled |
| BridgeSessions.UnlinkingTakesRival | src/acp/translator.ts:794-800 | the entry such an abort's answer takes is another prompt's, whose run stays active in the table |
| BridgeOrphans.AgentRunKeepsInv | src/acp/translator.ts:665-1079 | in every run of bridge and table the table's index is exact, active runs are known prompts of their sessions, and a prompt being cancelled is nowhere active |
| BridgeOrphans.OnlyALateAbortUnlinks | src/acp/translator.ts:794-800 | over every run, active runs that are their sessions' entries stay so if and only if the step is not the answer to an abort on a session with an active run |
| BridgeOrphans.OnlyARefusalUncovers | src/acp/translator.ts:670-698 | over every run, entries that are active or being cancelled stay so if and only if the step is not the refusal of a prompt on a session whose entry is not being cancelled |
| BridgeOrphans.TurnsStayLinked | src/acp/translator.ts:665-1079 | if the prompts of every session take turns, an active run is always its session's entry |
| BridgeOrphans.OrphansStayBusy | src/acp/session.ts:48-107 | a session whose active run is not its entry stays as it is exactly until it is prompted, cancelled, or cleared by work about a prompt of it, whatever sessions are created |
| BridgeOrphans.SessionLeftBusyExample | src/acp/translator.ts:794-800 | a reachable run of a client that takes its prompts one by one, after which a session is busy with an abandoned run and no other session can be created |
| SessionStore.InMemorySessionStore.RemoveSession | src/acp/session.ts:35-46 | removal unindexes the run, aborts the controller and deletes the session, and tells whether it was there |
| SessionStore.InMemorySessionStore.ReapIdleSessions | src/acp/session.ts:48-59 | the loop over the objects does what reaping does to the table |
| SessionStore.InMemorySessionStore.EvictOldestIdleSession | src/acp/session.ts:61-78 | the loop over the objects does what eviction does to the table, and reports whether it could |
| SessionStore.InMemorySessionStore.CreateSession | src/acp/session.ts:80-107 | the objects after creation are the table after creation, and the session is returned unless creation failed |
| SessionStore.InMemorySessionStore.GetSession | src/acp/session.ts:111-117 | returns and touches the session if it is there |
| SessionStore.InMemorySessionStore.GetSessionByRunId | src/acp/session.ts:119-129 | returns and touches the indexed session of a run |
| SessionStore.InMemorySessionStore.SetActiveRun | src/acp/session.ts:131-140 | sets run and controller of a known session and indexes the run |
| SessionStore.InMemorySessionStore.ClearActiveRun | src/acp/session.ts:142-153 | drops run, controller and index entry |
| SessionStore.InMemorySessionStore.CancelActiveRun | src/acp/session.ts:155-168 | aborts and drops an active run, and tells whether there was one |
| Sessions.ReapRemovesExactlyTheStaleIdle | src/acp/session.ts:48-59 | reaping removes exactly the idle sessions not touched for the idle time and leaves everything else as it is |
| Sessions.EvictionPicksLeastTouchedIdle | src/acp/session.ts:61-78 | eviction takes a least recently touched idle session, and finds none exactly if all are busy |
| Sessions.CreationFailsExactly | src/acp/session.ts:80-107 | creation throws if and only if the session is new, the table is full, nothing is stale, and no idle session but one with the empty id is the oldest |
| Sessions.CreationFailsOnlyIfAllBusy | src/acp/session.ts:80-107 | without an empty id in the table creation throws if and only if the session is new and the table is full of busy sessions |
| Sessions.EmptyIdBlocksEviction | src/acp/session.ts:74-76 | a full table with one idle session under the empty id refuses a new session |
| Sessions.CreationDropsOnlyIdle | src/acp/session.ts:80-107 | creation never removes a busy session, and a session that is not stale only when the table is full and it is a least touched idle one |
| Sessions.CreationCreates | src/acp/session.ts:80-107 | creation succeeds exactly if the session is there afterwards with the new key and directory, touched now |
| Sessions.CreateKeepsInv | src/acp/session.ts:80-107 | creation keeps the size bound and the exact index |
| Sessions.CancellingKeeps | src/acp/session.ts:155-168 | cancelling keeps the exact index and leaves the session without a run |
| Sessions.SetActiveKeepsIndexExactly | src/acp/session.ts:131-140 | starting a run keeps the index the inverse of the active runs if and only if the session is unknown or the run id is non-empty, not another session's, and the session had no other run |
| Sessions.PromptIsDisciplined | src/acp/translator.ts:670-701 | cancelling first and then starting a fresh run, as a prompt does, keeps the table's invariant |
| Sessions.HistoryKeepsInv | src/acp/session.ts:24-188 | over every disciplined history the run index is the exact inverse of the active runs and the table never holds more than its maximum |
| SessionHistory.CallChangesExactly | src/acp/session.ts:31-170 | what a call does to a session that stays: touched exactly if the call is about it, another key or directory only from creating it again, another run or controller only from starting, clearing or cancelling one |
| SessionHistory.NewSessionsAreIdle | src/acp/session.ts:98-107 | a new session is the one the call creates, idle, created and touched now |
| SessionHistory.AbortedExactly | src/acp/session.ts:155-160 | over every disciplined history a controller is aborted if and only if a call cancelled its run; making room aborts nobody |
| SessionHistory.TouchedByTheLastCall | src/acp/session.ts:31-33 | over every disciplined history a session's touch time is the time of the last call that was about it |
| SessionHistory.ActiveWasStarted | src/acp/session.ts:131-168 | over every disciplined history what a session has active is what the last call to start a run on it gave it, with none ending it since |
| SessionHistory.StartedStaysActive | src/acp/session.ts:48-78 | and conversely: a run started stays active, and its session in the table, until a call ends it |
| SnapshotText.SentText.Process | src/acp/translator.ts:995-1013 | a snapshot longer than what was sent sends the part behind it and records its length and text |
| SnapshotText.OnlyTheEndIsTrimmed | src/acp/translator.ts:995-999 | the text of a snapshot is its joined blocks without the white space at the end |
| SnapshotText.SentLengthIsExact | src/acp/translator.ts:1000-1007 | the recorded length is the length of everything sent, whatever the snapshots |
| SnapshotText.StepIsExactlyRightForPrefixes | src/acp/translator.ts:1005-1007 | a longer snapshot brings the client to its text if and only if what was seen is a prefix of it |
| SnapshotText.ChunksAreTheLongestSnapshot | src/acp/translator.ts:966-1015 | for prefix-ordered snapshots in any order the chunks sent concatenate to the longest right-trimmed snapshot so far |
| Chunking.EffectiveMax | src/agents/compaction.ts:223 | the limit is the floor of maxTokens / 1.2, at least 1 |
| Chunking.ChunkMessagesByMaxTokens | src/agents/compaction.ts:213-253 | the chunks are the input in order, each within the limit or a single message, and no such partition has fewer chunks |
| Chunking.MaximalIsShortest | src/agents/compaction.ts:229-246 | a chunking in which no chunk could take the next message is no longer than any chunking of the same messages |
| TokenShare.NormalizeParts | src/agents/compaction.ts:110-115 | at least one part, no more than messages or than asked for, and exactly the floor in between |
| TokenShare.SplitMessagesByTokenShare | src/agents/compaction.ts:117-206 | the loop computes the split that SplitIsSafePartition, SharesAreOnTarget and NeighboursExceed are about |
| TokenShare.SplitCurrentAtPendingBoundary | src/agents/compaction.ts:138-151 | cutting at the waiting assistant message closes the messages before it as a chunk |
| TokenShare.SplitIsSafePartition | src/agents/compaction.ts:117-206 | the chunks are non-empty, at most as many as asked for, the input in order, and no cut parts a call from its protected result |
| TokenShare.CallStaysWithResult | src/agents/compaction.ts:171-194 | a live tool call is in the same chunk as its first matching result unless another assistant message or a result without id lies between |
| TokenTargets.WaitingMeans | src/agents/compaction.ts:168-194 | the calls waited for are those of the last assistant message, if it completed, without a result since, unless one without id came |
| TokenTargets.SharesAreOnTarget | src/agents/compaction.ts:117-206 | with the target the total divided by the parts: at every cut the chunk before it together with the first message behind it, or the call group moved behind it, exceeds the target; and while parts are left no message is added to a non-empty chunk that it takes over the target, unless calls are waited for |
| TokenTargets.NeighboursExceed | src/agents/compaction.ts:156-166 | two neighbouring chunks together always exceed the target |
| Repair.RepairKeepsConversation | src/agents/session-transcript-repair.ts:355-530 | the repair keeps every message but tool results, in order, and never leaves a result at the front; what becomes of the results is RepairTurns' |
| Repair.RepairMayGrow | src/agents/session-transcript-repair.ts:497-509 | a call without a result is given a synthetic one; how many in general is the balance's |
| Repair.WellPairedUnchanged | src/agents/session-transcript-repair.ts:355-530 | the repair leaves a well-paired history alone |
| Repair.SafeCutKeepsPairing | src/agents/compaction.ts:541-550 | what a cut that parts no protected pair leaves of a well-paired history is well-paired |
| RepairCounts.RepairBalance | src/agents/session-transcript-repair.ts:355-530 | for every history the messages returned, the orphans reported and the duplicates taken out are the input and the results put in |
| RepairTurns.TurnsAreAnswered | src/agents/session-transcript-repair.ts:355-530 | for every history, behind each assistant message with calls the repaired history has, for every called id not answered earlier, the first result with that id in its turn, or the synthetic one if there is none and the message completed, and no result of any other id |
| RepairTurns.ChangedTurnsAreExact | src/agents/session-transcript-repair.ts:490-520 | in a history that is changed, exactly these results stand directly behind the message, in the order of its calls, each once, and then the other messages of the turn |
| RepairTurns.CompletedTurnsAreOrdered | src/agents/session-transcript-repair.ts:490-520 | for every history, behind a message with calls that completed the repaired history has the results of the turn in front of everything else in it |
| RepairTurns.ResultsAreReal | src/agents/session-transcript-repair.ts:497-509 | every result in the repaired history is one of the history or the synthetic one of a call that had none |
| RepairCounts.DuplicateMakesUpForMissing | src/agents/session-transcript-repair.ts:428-509 | a history on which one duplicate is taken out and one missing result put in, so that the count is right without the repair only deleting |
| Pruning.Budget | src/agents/compaction.ts:528 | the budget is the floor of the share of the context, at least 1 |
| Pruning.PruneHistoryForContextShare | src/agents/compaction.ts:513-575 | pruning ends within budget or unsplittable, and the last share was dropped from a history over budget; everything but tool results is dropped or kept in order; totals and numbers of shares and messages are exact; kept plus dropped is the input's number plus the results put in less the duplicates taken out over all rounds; while the repair only deletes, dropped plus kept is a subsequence of the input; a well-paired history keeps exactly its rest |
| Pruning.PruningMiscounts | src/agents/compaction.ts:541-560 | on a question and an unanswered call pruning counts one message as dropped and keeps two of two |
| LineSeek.NormalizePunctuation | src/agents/apply-patch-update.ts:164-205 | character by character, dashes, quotes and spaces become the ASCII ones |
| LineSeek.FoldCharMeans | src/agents/apply-patch-update.ts:164-205 | which characters are dashes, quotes and spaces, and that all others stay |
| LineSeek.LooserTiersMatch | src/agents/apply-patch-update.ts:126-145 | a match at one tier is a match at every looser tier |
| LineSeek.LinesMatch | src/agents/apply-patch-update.ts:150-162 | true exactly if every line of the pattern matches after normalizing |
| LineSeek.SeekSequence | src/agents/apply-patch-update.ts:107-148 | the four loops find what the search function finds |
| LineSeek.SeekFindsStrictestThenFirst | src/agents/apply-patch-update.ts:107-148 | the least index at the strictest tier that matches in the window, and none exactly if no index matches even trimmed and folded |
| Splicing.InOrderMeans | src/agents/apply-patch-update.ts:85-86 | replacements in order are in bounds, sorted and pairwise disjoint |
| Splicing.SplicingIsSubstitution | src/agents/apply-patch-update.ts:89-105 | splicing in place from the last replacement to the first is the simultaneous substitution |
| Splicing.UntouchedLineSurvives | src/agents/apply-patch-update.ts:89-105 | a line outside every run is there afterwards, moved by what the runs before it grew or shrank |
| Splicing.NewLinesAreThere | src/agents/apply-patch-update.ts:89-105 | where a run was, moved by what the runs before it grew or shrank, its new lines are, whole and in order |
| Splicing.NothingElseIsThere | src/agents/apply-patch-update.ts:89-105 | the lines afterwards number as many as before and what all runs grew |
| Splicing.ApplyReplacements | src/agents/apply-patch-update.ts:89-105 | the loops over replacements compute the splices, and for replacements in order the simultaneous substitution |
| Splicing.SpliceInPlace | src/agents/apply-patch-update.ts:95-102 | removing and inserting line by line replaces the run, in bounds or not |
| PatchLocate.SortIsStable | src/agents/apply-patch-update.ts:85 | sorting permutes, orders by start, and keeps the order of equal starts |
| PatchOrder.PlainReplacementsInOrder | src/agents/apply-patch-update.ts:37-87 | without end-of-file chunks and without insertions before a blank last line the sorted replacements are in bounds, in order and disjoint |
| PatchOrder.SortKeepsOrder | src/agents/apply-patch-update.ts:85 | a replacement found first stays before one found later unless that starts earlier |
| PatchOrder.SortedInOrderExactly | src/agents/apply-patch-update.ts:85-105 | sorted replacements are in bounds, in order and disjoint if and only if each is in bounds and every two of them fit |
| PatchOrder.ReplacementsInOrderExactly | src/agents/apply-patch-update.ts:37-87 | for all chunks that can be located, the sorted replacements are in bounds, in order and disjoint if and only if every pair with an end-of-file chunk, or an insertion before a blank last line, in it fits |
| PatchOrder.EndOfFileFits | src/agents/apply-patch-update.ts:120-121 | an end-of-file chunk that replaces lines replaces the last lines of the file, and exactly when another run fits it, before or behind |
| PatchOrder.InsertionFits | src/agents/apply-patch-update.ts:54-60 | an insertion goes before a blank last line, and exactly when another run fits it, before or behind |
| PatchOrder.TwoEndOfFileChunksOverlap | src/agents/apply-patch-update.ts:120-121 | two located end-of-file chunks that replace lines are never in order |
| PatchUpdate.ComputeReplacements | src/agents/apply-patch-update.ts:37-87 | the sorted replacements of the chunks, or the first error; in order for plain chunks |
| PatchUpdate.LocateChunk | src/agents/apply-patch-update.ts:46-82 | the code computes the location that WithoutContext and BehindContext are about |
| PatchContext.BestIsUnique | src/agents/apply-patch-update.ts:107-148 | the least place of the strictest tier that matches is one place |
| PatchContext.LinesArePlaced | src/agents/apply-patch-update.ts:54-82 | from a given line on, old lines are replaced at their best match, or without a blank last one at the best match of those, with the cursor behind them; the error is exactly that neither is anywhere; without old lines the chunk goes to the end, before a blank last line |
| PatchContext.WithoutContext | src/agents/apply-patch-update.ts:46-82 | a chunk without a context line is placed so from the cursor on |
| PatchContext.BehindContext | src/agents/apply-patch-update.ts:46-82 | a context line fails if and only if it matches nowhere from the cursor on even trimmed and folded; otherwise the chunk is placed so from behind the context line's best match on |
| PatchContext.ChunksAreChained | src/agents/apply-patch-update.ts:42-84 | each chunk is located from the cursor the one before it left, the first from the top |
| PatchContext.FirstErrorCounts | src/agents/apply-patch-update.ts:42-84 | an error is that of the first chunk that cannot be located from its cursor |
| PatchUpdate.ApplyUpdateHunk | src/agents/apply-patch-update.ts:14-35 | the new text of a file, or exactly the error of locating the chunks; the simultaneous substitution whenever the replacements are in order, as for plain chunks |
| PatchUpdateFacts.ReplacedLinesAreTheOldLines | src/agents/apply-patch-update.ts:63-82 | the lines a chunk replaces match its old lines, or those without a blank last one |
| PatchUpdateFacts.EndOfFileChunkCanOverlap | src/agents/apply-patch-update.ts:120-121 | two chunks whose replacements overlap because the second is an end-of-file chunk |
| PatchUpdateFacts.InsertionBeforeBlankLineCanBeLost | src/agents/apply-patch-update.ts:54-60 | two chunks after which the inserted line is gone |
| PatchUpdateFacts.UnchangedLinesGiveSameTextExactly | src/agents/apply-patch-update.ts:24-34 | an update whose replacements change no line returns the same text if and only if it is empty or ends in exactly one newline behind another character |
| PatchParse.OneHunk | src/agents/apply-patch.ts:436-520 | a parsed hunk has consumed between one and all of the remaining lines |
| PatchParse.Chunk | src/agents/apply-patch.ts:522-607 | a parsed chunk has consumed between one and all of the remaining lines |
| PatchParser.ParsePatchText | src/agents/apply-patch.ts:376-398 | the parser's loops return the hunks, or the error, of the patch |
| PatchParser.CheckPatchBoundariesLenient | src/agents/apply-patch.ts:400-421 | the lines between the markers, also out of a here-document, or the error |
| PatchParser.ParseHunks | src/agents/apply-patch.ts:386-395 | the loop over the remaining lines ends and returns every hunk or the first error with its line number |
| PatchParser.ParseOneHunk | src/agents/apply-patch.ts:436-520 | add, delete and update headers, in this order, or the header error |
| PatchParser.ParseChunks | src/agents/apply-patch.ts:480-498 | blank lines are skipped, a line of stars ends the hunk, everything else is a chunk |
| PatchParser.ParseUpdateFileChunk | src/agents/apply-patch.ts:522-607 | context marker, body lines, end-of-file marker and every error of a chunk |
| PatchRoundTrip.ChunksParse | src/agents/apply-patch.ts:480-498 | printed chunks, the first with or without its marker, are read back as the chunks they mean, whatever header follows |
| PatchRoundTrip.HunkParses | src/agents/apply-patch.ts:436-520 | a printed hunk is read back as the hunk it means and consumes exactly its lines |
| PatchRoundTrip.HunksParse | src/agents/apply-patch.ts:386-395 | the printed lines of any well-formed hunks are read back as those hunks |
| PatchRoundTrip.ParseOfPrint | src/agents/apply-patch.ts:376-607 | parsing a printed patch of any well-formed hunks, with or without carriage returns, returns the hunks |
| PatchRoundTrip.ParseOfHeredoc | src/agents/apply-patch.ts:409-416 | the same for the patch in a here-document, opened bare or with either quotes and closed by any line ending in EOF |
| PatchCanon.CanonMeans | src/agents/apply-patch.ts:376-607 | the canonical form of a printable hunk can be written and means the hunk |
| PatchImage.PrintableExactly | src/agents/apply-patch.ts:376-607 | a hunk is what the parser returns for some text if and only if it is printable |
| PatchImage.ParsedExactly | src/agents/apply-patch.ts:376-607 | hunks are what the parser returns for some text if and only if all of them are printable |
| PatchImage.PatchIsPrintable | src/agents/apply-patch.ts:376-607 | every hunk the parser returns, for any text, is printable |
| PatchImage.FormsAreEnough | src/agents/apply-patch.ts:376-607 | every hunk the parser can return is the meaning of a written form, and no other is |
| PatchCanon.ParseOfPrintedHunks | src/agents/apply-patch.ts:376-607 | printing any printable hunks and parsing the patch returns the same hunks, bare and out of a here-document, with and without carriage returns |
| PatchErrors.MarkerErrorsExactly | src/agents/apply-patch.ts:376-434 | the parser complains exactly about a blank text, a patch, also in a here-document, that does not begin with the begin marker, and one that does but does not end with the end marker |
| PatchErrors.ErrorsNameTheirLine | src/agents/apply-patch.ts:386-607 | for every text, every other error names the line it is about, counted from the begin marker: a line that is no header, an update header without chunks, a chunk without marker, a marker without lines, a line that cannot stand in a chunk |
| PatchErrors.StrayLineIsNamedLate | src/agents/apply-patch.ts:550-600 | a line that cannot stand in a chunk, first in a chunk without its marker, is reported under the number of the line behind it |
| PatchLayout.HeaderMayBePadded | src/agents/apply-patch.ts:436-468 | white space around a header changes nothing |
| PatchLayout.MoveMayBePadded | src/agents/apply-patch.ts:471-478 | nor does white space around the line an update moves to |
| PatchLayout.BlankLinesAreSkipped | src/agents/apply-patch.ts:480-486 | blank lines in front of a chunk are counted and skipped |
| PatchLayout.StarsEndTheChunks | src/agents/apply-patch.ts:487-489 | chunks end at a line of stars |
| OutputBuffers.ChunkString | src/agents/bash-tools.shared.ts:219-225 | the pieces are the input, all of the limit's length but a shorter non-empty last one |
| OutputBuffers.CapPendingBuffer | src/agents/bash-process-registry.ts:232-252 | the buffer is left with exactly its last cap characters, and their exact count is returned |
| OutputBuffers.ProcessSession.AppendOutput | src/agents/bash-process-registry.ts:106-134 | after every append both pending buffers, their counts, the aggregate, the tail, the total and the truncation flag are exactly what the whole history of writes and drains makes them |
| OutputBuffers.ProcessSession.DrainSession | src/agents/bash-process-registry.ts:136-144 | a drain returns the last cap characters of each stream since the previous drain and forgets them |
| OutputBuffers.ProcessSession.HandleOutput | src/agents/bash-tools.exec-runtime.ts:616-619 | feeding text in chunks leaves the session as if it had come in one piece |
| OutputHistory.DroppedByWrite | src/agents/bash-process-registry.ts:118-131 | a write drops something exactly if something was dropped before or what is kept of its stream, or of everything, has no room for it |
| OutputHistory.PiecesMakeTheWhole | src/agents/bash-tools.shared.ts:219-225 | writing pieces is indistinguishable from writing their concatenation, also in whether anything is dropped |
| OutputHistory.ReaderGetsEverything | src/agents/bash-process-registry.ts:136-144 | unless something was dropped, the drained texts and the pending text are the whole stream |
| ShellQuotes.ExtractIsIdempotent | src/agents/bash-tools.exec.ts:358-411 | extracting the unquoted text a second time changes nothing |
| ShellQuotes.QuotedText | src/agents/bash-tools.exec.ts:358-411 | text in quotes, up to the closing quote, is dropped with its quotes, and what follows is read outside quotes |
| ShellQuotes.PlainText | src/agents/bash-tools.exec.ts:358-411 | text without quotes and backslashes is extracted as it is |
| ShellQuotes.EscapedText | src/agents/bash-tools.exec.ts:358-411 | outside quotes a backslash and the character behind it, also a quote, are extracted as they are |
| ShellQuotes.EscapedInQuotes | src/agents/bash-tools.exec.ts:358-411 | in double quotes a backslash hides the character behind it, also a quote |
| ShellQuotes.CutIsRight | src/agents/bash-tools.exec.ts:534-622 | pieces and operators are the command, every cut is at an operator, two bars in a row are one, every piece in front of a cut is balanced, the last is balanced exactly if the command is, and no operator stands in a piece outside quotes |
| ShellQuotes.NoCutInQuotes | src/agents/bash-tools.exec.ts:551-617 | at every cut the automaton, read from the beginning of the command, is outside quotes and not behind a backslash |
| ShellQuotes.SegmentsAreThePieces | src/agents/bash-tools.exec.ts:544-549 | each piece makes a segment of its own, in order, unless it is blank |
| ShellQuotes.BalancedExactlyInSegments | src/agents/bash-tools.exec.ts:534-622 | a command is balanced if and only if text can be extracted from every segment, with and without pipe splitting |
| ShellQuotes.ExtractionFollowsTheCuts | src/agents/bash-tools.exec.ts:358-411 | extracting a balanced command is extracting its pieces with the operators left between them |
| ShellScan.ExtractUnquotedShellText | src/agents/bash-tools.exec.ts:358-411 | the scanner returns the unquoted text exactly if every quote and escape is closed |
| ShellScan.SplitShellSegmentsOutsideQuotes | src/agents/bash-tools.exec.ts:534-622 | the scanner returns the non-blank pieces of the cut |
| AnthropicFold.StepKeepsFaithful | src/agents/anthropic-transport-stream.ts:654-818 | a step that reopens no block keeps a reader of the updates in agreement with the message |
| AnthropicFold.InOrderExactly | src/agents/anthropic-transport-stream.ts:724-784 | each position gets one start, updates of its kind, at most one end and nothing behind it if and only if no event without an index reaches a block that has ended |
| AnthropicFold.NumberedStreamsAreFaithful | src/agents/anthropic-transport-stream.ts:631-843 | for numbered deltas and stops the updates are in order and a reader ends up with exactly the blocks, redacted thinking behind its placeholder |
| AnthropicFold.MissingIndexEndsTwice | src/agents/anthropic-transport-stream.ts:780-786 | a stop without an index after the end of a block ends it twice |
| AnthropicFold.EndedTextIsFinal | src/agents/anthropic-transport-stream.ts:786-817 | the text an end announces is the text the block keeps |
| AnthropicFold.BlockHoldsItsDeltas | src/agents/anthropic-transport-stream.ts:654-818 | a block is made of its start and exactly what its number was sent between its start and its stop, in order, whatever is interleaved: texts, signatures, redacted data behind the placeholder, a tool's id, name and arguments, parsed from all that were sent or as given if none were |
| AnthropicFold.OneBlockPerStart | src/agents/anthropic-transport-stream.ts:654-722 | the message has a block for each start of a known kind and no other |
| AnthropicFold.UsageAddsUp | src/agents/anthropic-transport-stream.ts:638-650 | at every moment the total is the sum of its four parts |
| AnthropicFold.LastCountCounts | src/agents/anthropic-transport-stream.ts:638-650 | each of the four counts is what was last reported of it; the first event of a message reports all of them, with zero for what it leaves out |
| AnthropicFold.LastIdCounts | src/agents/anthropic-transport-stream.ts:632-637 | the response id is that of the last message that began |
| AnthropicFold.MapStopReason | src/agents/anthropic-transport-stream.ts:369-387 | what each stop reason of the stream becomes |
| AnthropicFold.LastReasonCounts | src/agents/anthropic-transport-stream.ts:820-824 | the stop reason of the message is that of the last event that brought one |
| AnthropicStream.AssistantOutput.FindIndex | src/agents/anthropic-transport-stream.ts:725 | the first block whose index equals the event's |
| AnthropicStream.AssistantOutput.Process | src/agents/anthropic-transport-stream.ts:631-843 | one event changes content, usage, stop reason, response id and pushed updates as the fold says |
| AnthropicStream.AssistantOutput.Extended | src/agents/anthropic-transport-stream.ts:728-778 | a delta of the block's kind is appended and pushed, a signature is appended silently, any other is ignored |
| AnthropicStream.AssistantOutput.Consume | src/agents/anthropic-transport-stream.ts:631-844 | the loop over the stream is the fold |
| RelayText.CompactIsRight | src/agents/acp-spawn-parent-stream.ts:18-20 | compacting loses only white space and leaves single blanks inside |
| RelayText.Truncate | src/agents/acp-spawn-parent-stream.ts:22-30 | unchanged if short enough, else the prefix followed by an ellipsis, of exactly the given length |
| RelayText.RelayLabel | src/agents/acp-spawn-parent-stream.ts:116 | a non-empty label of at most 40 characters that begins visibly |
| RelayProtocol.PhasesAreRight | src/agents/acp-spawn-parent-stream.ts:265-287 | a list of notices the phase automaton accepts alternates stalls and resumes, a stall first, and has only start notices behind a terminal one |
| RelayProtocol.StepKeeps | src/agents/acp-spawn-parent-stream.ts:220-397 | every event and timer keeps the relay's invariant |
| RelayProtocol.RunKeeps | src/agents/acp-spawn-parent-stream.ts:220-397 | in every run the buffer is under 220 characters, live text has its flush scheduled when there is a delay, a live relay has its lifetime timer, and the notices are in order |
| RelayProtocol.DisposedIsSilent | src/agents/acp-spawn-parent-stream.ts:387-397 | a disposed relay emits nothing but start notices and arms no timer |
| RelayProtocol.WithoutDelayTextMayWait | src/agents/acp-spawn-parent-stream.ts:255-258 | without a flush delay a short text stays buffered with nothing scheduled |
| RelayProtocol.ProgressStaysShort | src/agents/acp-spawn-parent-stream.ts:242-253 | in every run progress notices begin with the label and have at most 262 characters |
| RelayProtocol.TimedFlushShowsEverything | src/agents/acp-spawn-parent-stream.ts:242-263 | when the flush timer fires everything visible in the buffer is shown |
| RelayTold.EverythingIsTold | src/agents/acp-spawn-parent-stream.ts:306-397 | in every run all non-blank text of the child's run up to the relay's end was flushed, text after text, or is in the buffer; the progress notices show the last 4000 characters of each flushed text, compacted and cut to 220, in order; the relay has ended exactly if an event ended it; the time of progress is that of the last text |
| RelayTold.NothingVisibleIsLost | src/agents/acp-spawn-parent-stream.ts:242-253 | if no flush had more than 220 characters, the visible text of the progress notices without their labels, and then that of the buffer, is the visible text of all the child said |
| RelayTold.DeltaIsShownAtOnceExactly | src/agents/acp-spawn-parent-stream.ts:335-344 | a delta is flushed at once exactly if it takes the buffer to 220 characters or has a blank line, and waits in the buffer otherwise |
| RelaySignals.SignalsExactly | src/agents/acp-spawn-parent-stream.ts:265-397 | in every run the notices other than progress are exactly: a start notice whenever one is asked for, one stall notice when a poll first finds the child silent for the configured time, one of resuming with the next text, and with the event that ends the relay the notice of that ending |
| SpawnRelay.ParentStreamRelay.EmitNotice | src/agents/acp-spawn-parent-stream.ts:194-205 | a non-blank notice is logged trimmed, and put into the parent's queue exactly if updates are surfaced |
| SpawnRelay.ParentStreamRelay.FlushPending | src/agents/acp-spawn-parent-stream.ts:242-253 | the flush timer is cleared, the buffer emptied and its snippet emitted if it is not blank |
| SpawnRelay.ParentStreamRelay.ScheduleFlush | src/agents/acp-spawn-parent-stream.ts:255-263 | a live relay with a delay and no armed timer arms it |
| SpawnRelay.ParentStreamRelay.WatchOutput | src/agents/acp-spawn-parent-stream.ts:265-287 | one stall notice after the silence, none while stalled or disposed |
| SpawnRelay.ParentStreamRelay.LifetimeTimerFires | src/agents/acp-spawn-parent-stream.ts:290-299 | a live relay emits its timeout notice and is disposed |
| SpawnRelay.ParentStreamRelay.TakeDelta | src/agents/acp-spawn-parent-stream.ts:312-344 | the code does with a delta what EverythingIsTold and DeltaIsShownAtOnceExactly are about: it resumes a stalled relay, is put behind the buffer, and is flushed at once or scheduled |
| SpawnRelay.ParentStreamRelay.OnAgentEvent | src/agents/acp-spawn-parent-stream.ts:306-385 | events of other runs and after disposal are ignored; end and error flush, emit their notice and dispose |
| SpawnRelay.ParentStreamRelay.DisposeRelay | src/agents/acp-spawn-parent-stream.ts:387-397 | the first disposal turns off every timer, the interval and the subscription; later ones do nothing |
| ToolLocations.NormalizeLine | src/acp/event-mapper.ts:129-135 | the floor of a finite number if it is positive |
| ToolLocations.KeyInjective | src/acp/event-mapper.ts:167 | different locations have different keys, colons in paths included |
| ToolLocations.LocationTable.AddToolLocation | src/acp/event-mapper.ts:147-172 | after every addition the table shows exactly the added locations, a bare path only while no line of it was added |
| ToolLocations.BareOrExactlyTheLines | src/acp/event-mapper.ts:156-171 | for every path the table has either one bare entry or exactly the distinct lines added |
| ToolLocations.OrderDoesNotMatter | src/acp/event-mapper.ts:147-172 | the table depends on the set of added locations only |

## Left out

- The gateway, the client connection, session snapshots, clocks and random ids: their answers are arbitrary events; a run id is fresh. Chat events, tool events and approvals of other kinds than `chat` are not modelled.
- Starting a task and running it to its first await is one step; a sweep resumes between two of its questions as a step of its own, which allows more interleavings than the event loop does.
- A cancel for a session without an entry in the map, rate limits and session existence checks settle no prompt and are not part of the bridge's state; a prompt over the size limit is an input of `BridgeSessions`.
- Abort controllers are numbers, and nothing in the model listens to their abort; a run id is not the empty string, as random ids are not.
- SnapshotText.ChunksAreTheLongestSnapshot: the channel belongs to one prompt; that the handler looks the prompt up again by session id after its await is not modelled, and thinking text is a second channel of the same kind.
- Token estimates are an arbitrary non-negative function of a message that adds up over a list; 1.2 is exactly 6/5, and shares and budgets are real numbers without rounding.
- Repair.RepairKeepsConversation: the rewriting of a result's tool name and messages that are not objects are not modelled.
- Summarising, retries, adaptive chunk ratios and model limits of compaction: calls and single-branch arithmetic.
- Reading and writing files, sandbox paths and the summary of apply_patch; error messages are error values with their line numbers. Strings are sequences of Unicode scalar values: lengths and positions are the source's for texts without surrogate pairs.
- PatchRoundTrip.ParseOfPrint: the texts are those `PatchText` writes; blank lines between chunks and padded headers, which the parser also takes, are not among them; `PatchLayout` says that they change nothing.
- JavaScript arrays that a function mutates through a parameter are returned instead (capPendingBuffer, scanners' segment lists); the blocks of an Anthropic message are values in its content, so references to them held by earlier updates are not modelled.
- OutputBuffers.ProcessSession.AppendOutput: the caps are natural numbers, and the fields an older session object might lack are always there; exit, backgrounding and the registry of sessions are not modelled.
- The branch of `extractUnquotedShellText` for a backslash inside double quotes cannot be reached, since backslashes are handled before it, and is not modelled; nor are the regular expressions applied to the extracted text.
- parseStreamingJson is uninterpreted; cost and what is done after an error of the Anthropic stream are not modelled, and an unknown stop reason ends the stream where it throws. Usage counts and indices are integers.
- The relay's log file, task progress records and heartbeat wake-ups: only the notices and their order are modelled. Delays are taken as normalized whole milliseconds.
- ToolLocations.LocationTable.AddToolLocation: takes the normalized path; URL parsing and the bounded walk over tool arguments that feeds the table are not modelled.
- The Electron shell, updaters, OAuth, provider clients, configuration and prompt texts: input and output, tables, or single branches.
