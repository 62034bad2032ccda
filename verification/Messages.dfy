/** Conversation messages, as far as compaction looks at them. */
module Messages {
  import opened Collections

  datatype Stop = Completed | Aborted | Errored

  /** `calls` are the ids of an assistant's tool calls, in order; `callId` is the id of
      the call a result answers, if it carries one. */
  datatype Message =
    | User(text: string)
    | Assistant(calls: seq<string>, stop: Stop, text: string)
    | ToolResult(callId: Option<string>, text: string)

  /** The token estimate of a message, an arbitrary non-negative number. */
  type Estimator = Message -> nat

  function Tokens(estimate: Estimator, messages: seq<Message>): nat
  {
    if messages == [] then 0 else estimate(messages[0]) + Tokens(estimate, messages[1..])
  }

  lemma {:induction false} TokensAppend(estimate: Estimator, a: seq<Message>, b: seq<Message>)
    ensures Tokens(estimate, a + b) == Tokens(estimate, a) + Tokens(estimate, b)
  {
    if a == [] {
      assert a + b == b;
    } else {
      assert (a + b)[1..] == a[1..] + b;
      TokensAppend(estimate, a[1..], b);
    }
  }

  lemma TokensSingle(estimate: Estimator, m: Message)
    ensures Tokens(estimate, [m]) == estimate(m)
  {
    assert [m][1..] == [];
  }

  lemma TokensSnoc(estimate: Estimator, a: seq<Message>, m: Message)
    ensures Tokens(estimate, a + [m]) == Tokens(estimate, a) + estimate(m)
  {
    TokensAppend(estimate, a, [m]);
    TokensSingle(estimate, m);
  }
}
