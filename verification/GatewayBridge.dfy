/** The state the ACP gateway bridge keeps about prompts in flight, and what each
    stretch of its code between two awaits does to it (src/acp/translator.ts).

    A prompt is identified by its idempotency key: the source draws a fresh random
    one for every prompt object, so the key stands for the object itself. A disconnect
    context is identified by its value: no two contexts ever share a generation
    (`KnownOutage` in `BridgeInvariant`), so comparing values is comparing objects. */
module GatewayBridge {
  import opened Collections

  datatype Context = Context(generation: nat, reason: string)

  datatype Prompt = Prompt(
    sessionId: string,
    sessionKey: string,
    sendAccepted: bool,
    disconnect: Option<Context>)

  datatype StopReason = EndTurn | MaxTokens | Cancelled

  datatype Outcome = Resolved(stop: StopReason) | RejectedDisconnected(reason: string) | RejectedSend

  /** What made the bridge settle a prompt. */
  datatype Cause =
    | ChatEvent(named: Option<string>)
    | WaitReply(asked: string)
    | CancelRequest
    | SendFailure
    | Deadline(generation: nat)

  datatype Settlement = Settlement(run: string, outcome: Outcome, cause: Cause)

  /** `prompts` holds every prompt object made so far, also those no longer in the
      pending map; `outages` every context made so far; `settlements` every call of a
      prompt's resolve or reject, in order. */
  datatype Bridge = Bridge(
    pending: OrderedMap<string, string>,
    prompts: map<string, Prompt>,
    timer: Option<nat>,
    active: Option<Context>,
    generation: nat,
    outages: seq<Context>,
    settlements: seq<Settlement>)

  const INITIAL := Bridge(EmptyMap(), map[], None, None, 0, [], [])

  /** The object `run` is the one the pending map holds for its session. */
  predicate IsPending(b: Bridge, run: string)
  {
    run in b.prompts && b.pending.Get(b.prompts[run].sessionId) == Some(run)
  }

  // ----- removing entries and settling -----

  /** The outage is the same, no session gains an entry, and the timer is dropped only
      when the map is empty. */
  predicate KeepsTimer(b: Bridge, later: Bridge)
  {
    && later.active == b.active && later.generation == b.generation
    && later.pending.entries.Keys <= b.pending.entries.Keys
    && (later.timer == b.timer || later.pending.Size() == 0)
  }

  function ClearTimerIfIdle(b: Bridge): (later: Bridge)
    ensures later == b.(timer := later.timer) && KeepsTimer(b, later)
  {
    if b.pending.Size() == 0 then b.(timer := None) else b
  }

  /** Deletes whatever entry the session has, without looking at its run. */
  function RemoveSession(b: Bridge, sessionId: string): (later: Bridge)
    ensures later == b.(pending := later.pending, timer := later.timer) && KeepsTimer(b, later)
  {
    ClearTimerIfIdle(b.(pending := b.pending.Delete(sessionId)))
  }

  function Settle(b: Bridge, run: string, outcome: Outcome, cause: Cause): Bridge
  {
    b.(settlements := b.settlements + [Settlement(run, outcome, cause)])
  }

  /** The first half of `finishPrompt`, up to its await. */
  function BeginFinish(b: Bridge, run: string): (later: Bridge)
    requires run in b.prompts
    ensures later == b.(pending := later.pending, timer := later.timer) && KeepsTimer(b, later)
  {
    RemoveSession(b, b.prompts[run].sessionId)
  }

  /** `rejectPendingPrompt`: only the prompt object still in the map is rejected. */
  function RejectPending(b: Bridge, run: string, ctx: Context): (later: Bridge)
    ensures later.prompts.Keys == b.prompts.Keys && KeepsTimer(b, later)
  {
    if IsPending(b, run)
    then Settle(BeginFinish(b, run), run, RejectedDisconnected(ctx.reason), Deadline(ctx.generation))
    else b
  }

  function ClearDisconnectState(b: Bridge, run: string, ctx: Context): (later: Bridge)
    requires run in b.prompts
    ensures later.prompts.Keys == b.prompts.Keys && KeepsTimer(b, later)
  {
    if b.prompts[run].disconnect != Some(ctx) then b
    else b.(prompts := b.prompts[run := b.prompts[run].(disconnect := None)])
  }

  predicate ShouldReject(b: Bridge, run: string, ctx: Context)
    requires run in b.prompts
  {
    && b.prompts[run].disconnect == Some(ctx)
    && (!b.prompts[run].sendAccepted || (b.active.Some? && b.active.value.generation == ctx.generation))
  }

  /** What the grace deadline does to a prompt whose run has not ended. */
  function AtDeadline(b: Bridge, run: string, ctx: Context): (later: Bridge)
    requires run in b.prompts
    ensures later.prompts.Keys == b.prompts.Keys && KeepsTimer(b, later)
  {
    if ShouldReject(b, run, ctx) then RejectPending(b, run, ctx) else ClearDisconnectState(b, run, ctx)
  }

  // ----- prompts and their sends -----

  function StartPrompt(b: Bridge, sessionId: string, sessionKey: string, run: string): Bridge
  {
    b.(prompts := b.prompts[run := Prompt(sessionId, sessionKey, false, b.active)],
       pending := b.pending.Set(sessionId, run),
       timer := if b.active.Some? && b.timer.None? then Some(b.active.value.generation) else b.timer)
  }

  function AcceptSend(b: Bridge, run: string): (later: Bridge)
    ensures later.prompts.Keys == b.prompts.Keys && KeepsTimer(b, later)
  {
    if IsPending(b, run)
    then b.(prompts := b.prompts[run := b.prompts[run].(sendAccepted := true)])
    else b
  }

  /** The final catch of the send: a closed gateway leaves a prompt that is still in
      the map to the disconnect machinery, every other failure rejects it. */
  function FailSend(b: Bridge, run: string, gatewayClosed: bool): (later: Bridge)
    requires run in b.prompts
    ensures later.prompts.Keys == b.prompts.Keys && KeepsTimer(b, later)
  {
    if gatewayClosed && IsPending(b, run) then b
    else Settle(BeginFinish(b, run), run, RejectedSend, SendFailure)
  }

  /** The tail of `cancel`, after the abort request came back. */
  function FinishCancel(b: Bridge, run: string): (later: Bridge)
    requires run in b.prompts
    ensures later.prompts.Keys == b.prompts.Keys && KeepsTimer(b, later)
  {
    Settle(BeginFinish(b, run), run, Resolved(Cancelled), CancelRequest)
  }

  // ----- gateway events -----

  predicate Matches(b: Bridge, sessionId: string, sessionKey: string, named: Option<string>)
  {
    && sessionId in b.pending.entries
    && var run := b.pending.entries[sessionId];
    && run in b.prompts && b.prompts[run].sessionKey == sessionKey
    && (named.Some? ==> named.value == run)
  }

  /** `findPendingBySessionKey`: the first entry, in map order, that matches. */
  function FindPending(b: Bridge, sessionKey: string, named: Option<string>, from: nat := 0): (r: Option<string>)
    ensures r.Some? ==> r.value in b.prompts && b.prompts[r.value].sessionKey == sessionKey
                        && (named.Some? ==> named.value == r.value)
    decreases |b.pending.order| - from
  {
    if from >= |b.pending.order| then None
    else if Matches(b, b.pending.order[from], sessionKey, named)
    then Some(b.pending.entries[b.pending.order[from]])
    else FindPending(b, sessionKey, named, from + 1)
  }

  function OpenOutage(b: Bridge, reason: string): Bridge
  {
    var ctx := Context(b.generation + 1, reason);
    b.(generation := ctx.generation, active := Some(ctx), outages := b.outages + [ctx])
  }

  function MarkPrompts(b: Bridge, ctx: Context): (later: Bridge)
    ensures later == b.(prompts := later.prompts)
  {
    b.(prompts := map r | r in b.prompts ::
         if IsPending(b, r) then b.prompts[r].(disconnect := Some(ctx)) else b.prompts[r])
  }

  function Disconnect(b: Bridge, reason: string): Bridge
  {
    var down := OpenOutage(b, reason);
    if b.pending.Size() == 0 then down
    else MarkPrompts(down, down.active.value).(timer := Some(down.generation))
  }

  // ----- the reconcile sweep -----

  /** `reconcilePendingPrompts` in progress: the entries it copied, the index it is at,
      and whether some prompt asked to keep the timer. */
  datatype Sweep = Sweep(
    generation: nat,
    deadlineExpired: bool,
    snapshot: seq<(string, string)>,
    next: nat,
    keepTimer: bool)

  function Entries(b: Bridge): (s: seq<(string, string)>)
    requires b.pending.Valid()
    ensures forall i :: 0 <= i < |s| ==> b.pending.Get(s[i].0) == Some(s[i].1)
    ensures forall sid :: sid in b.pending.entries ==> (sid, b.pending.entries[sid]) in s
  {
    var s := seq(|b.pending.order|, i requires 0 <= i < |b.pending.order| =>
      assert b.pending.order[i] in b.pending.order;
      (b.pending.order[i], b.pending.entries[b.pending.order[i]]));
    assert forall sid :: sid in b.pending.entries ==> (sid, b.pending.entries[sid]) in s by {
      forall sid | sid in b.pending.entries
        ensures (sid, b.pending.entries[sid]) in s
      {
        assert sid in b.pending.order;
        var i :| 0 <= i < |b.pending.order| && b.pending.order[i] == sid;
        assert s[i] == (sid, b.pending.entries[sid]);
      }
    }
    s
  }

  /** The sweep asks the gateway about an entry only if it is still in the map and
      still carries the generation the sweep was started for. */
  predicate Eligible(b: Bridge, generation: nat, entry: (string, string))
  {
    && b.pending.Get(entry.0) == Some(entry.1)
    && entry.1 in b.prompts
    && b.prompts[entry.1].disconnect.Some?
    && b.prompts[entry.1].disconnect.value.generation == generation
  }

  /** The index at which the sweep next awaits the gateway, or the end. */
  function NextEligible(b: Bridge, sw: Sweep, from: nat): (i: nat)
    requires from <= |sw.snapshot|
    ensures from <= i <= |sw.snapshot|
    ensures i < |sw.snapshot| ==> Eligible(b, sw.generation, sw.snapshot[i])
    ensures forall j :: from <= j < i ==> !Eligible(b, sw.generation, sw.snapshot[j])
    decreases |sw.snapshot| - from
  {
    if from == |sw.snapshot| || Eligible(b, sw.generation, sw.snapshot[from]) then from
    else NextEligible(b, sw, from + 1)
  }

  /** The end of the sweep: its own generation's timer is dropped unless kept. */
  function EndSweep(b: Bridge, sw: Sweep): (later: Bridge)
    ensures later == b.(timer := later.timer)
  {
    if !sw.keepTimer && b.generation == sw.generation then b.(timer := None) else b
  }
}
