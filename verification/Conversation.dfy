/** Shared failure-free optional value. */
module Options {
  datatype Option<+T> = None | Some(value: T)
}

/** The conversation items that compaction and history repair rewrite. */
module Conversation {
  import opened Options

  datatype ToolCall = ToolCall(id: string, name: string, arguments: string)

  datatype ContentPart = TextPart(text: string) | ImagePart(url: string)

  datatype SyntheticReason =
    | CompactionMeta | SystemReminder | ProjectInstructions | AutoContinue | AutoRecovery
    | Interjection | TaskCompleted | SubagentCompleted | NotificationDrain | GoalSummary
    | GoalClassifierNudge | SchedulerFired | Unknown

  datatype Item =
    | System(content: string)
    | User(parts: seq<ContentPart>, syntheticReason: Option<SyntheticReason>)
    | Assistant(content: string, toolCalls: seq<ToolCall>)
    | ToolResult(callId: string, content: string, images: seq<ContentPart>)
    | BackendToolCall(content: string)
    | Reasoning(content: string, encryptedBytes: nat)

  /** `item` is an Assistant one of whose tool calls carries `id`. */
  predicate Declares(item: Item, id: string) {
    item.Assistant? && exists k :: 0 <= k < |item.toolCalls| && item.toolCalls[k].id == id
  }

  /** The call ids that `item` declares. */
  function DeclaredIds(item: Item): (ids: set<string>)
    ensures forall id :: id in ids <==> Declares(item, id)
  {
    if item.Assistant? then set k | 0 <= k < |item.toolCalls| :: item.toolCalls[k].id else {}
  }

  predicate AllResults(s: seq<Item>) {
    forall k :: 0 <= k < |s| ==> s[k].ToolResult?
  }

  /** Some result in `run` answers the call `id`. */
  predicate Answers(run: seq<Item>, id: string) {
    exists k :: 0 <= k < |run| && run[k].ToolResult? && run[k].callId == id
  }

  /** How many results in `run` answer the call `id`. */
  function AnswerCount(run: seq<Item>, id: string): nat {
    if run == [] then 0
    else (if run[0].ToolResult? && run[0].callId == id then 1 else 0) + AnswerCount(run[1..], id)
  }

  /** How many of `calls` carry `id`. */
  function CallCount(calls: seq<ToolCall>, id: string): nat {
    if calls == [] then 0
    else (if calls[0].id == id then 1 else 0) + CallCount(calls[1..], id)
  }

  lemma AnswerCountConcat(a: seq<Item>, b: seq<Item>, id: string)
    ensures AnswerCount(a + b, id) == AnswerCount(a, id) + AnswerCount(b, id)
  {
    if a == [] {
      assert a + b == b;
    } else {
      assert (a + b)[1..] == a[1..] + b;
      AnswerCountConcat(a[1..], b, id);
    }
  }

  lemma AnswerCountPositive(run: seq<Item>, id: string)
    ensures AnswerCount(run, id) > 0 <==> Answers(run, id)
  {
    if run != [] {
      AnswerCountPositive(run[1..], id);
      if run[0].ToolResult? && run[0].callId == id {
        assert Answers(run, id);
      } else if Answers(run, id) {
        var k :| 0 <= k < |run| && run[k].ToolResult? && run[k].callId == id;
        assert run[1..][k - 1] == run[k];
      } else {
        forall k | 0 <= k < |run[1..]| ensures !(run[1..][k].ToolResult? && run[1..][k].callId == id) {
          assert run[1..][k] == run[k + 1];
        }
      }
    }
  }

  lemma CallCountPositive(calls: seq<ToolCall>, id: string)
    ensures CallCount(calls, id) > 0 <==> exists k :: 0 <= k < |calls| && calls[k].id == id
  {
    if calls != [] {
      CallCountPositive(calls[1..], id);
      if k :| 0 <= k < |calls| && calls[k].id == id && k > 0 {
        assert calls[1..][k - 1] == calls[k];
      }
    }
  }
}
