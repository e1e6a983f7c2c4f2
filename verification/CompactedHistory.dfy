/** `build_compacted_history` over what the extractors keep of a conversation:
    the compacted history validates, yields the same recent messages again, and
    still knows the last real query. */
module CompactedHistory {
  import opened Options
  import opened Conversation
  import opened Text
  import opened Pairing
  import opened SanitizeHistory
  import opened UserQuery
  import CompactSummary
  import CleanSummary

  const AUTO_CONTINUE_SENTINEL := "__auto_continue__"
  const AUTO_CONTINUE_PROMPT :=
    "Continue the conversation from where it left off without asking the user any further questions. "
    + "Resume directly - do not acknowledge the summary, do not recap what was happening, "
    + "do not preface with \"I'll continue\" or similar.\n"
    + "Pick up the last task as if the break never happened."
  const OMITTED := "Tool call omitted..."
  const SUMMARY_PREAMBLE :=
    "This session is being continued from a previous conversation that ran out of context. "
    + "The summary below covers the earlier portion of the conversation.\n\n"

  // ---- which user items are real turns ----

  function Texts(parts: seq<ContentPart>): seq<string> {
    if parts == [] then []
    else (if parts[0].TextPart? then [parts[0].text] else []) + Texts(parts[1..])
  }

  function TextContent(parts: seq<ContentPart>): string {
    JoinLines(Texts(parts))
  }

  predicate IsSyntheticExtractedQuery(text: string) {
    text == "" || text == AUTO_CONTINUE_SENTINEL || text == AUTO_CONTINUE_PROMPT
  }

  function QueryOf(item: Item): string
    requires item.User?
  {
    ExtractUserQuery(TextContent(item.parts))
  }

  predicate IsRealUserTurn(item: Item) {
    item.User? && item.syntheticReason.None?
    && ((exists k :: 0 <= k < |item.parts| && item.parts[k].ImagePart?)
        || !IsSyntheticExtractedQuery(QueryOf(item)))
  }

  /** The last position where `p` holds. */
  function RPosition(s: seq<Item>, p: Item -> bool): (r: Option<nat>)
    ensures r.Some? ==> r.value < |s| && p(s[r.value]) && forall k :: r.value < k < |s| ==> !p(s[k])
    ensures r.None? ==> forall k :: 0 <= k < |s| ==> !p(s[k])
  {
    if s == [] then None
    else if p(s[|s| - 1]) then Some(|s| - 1)
    else
      assert forall k :: 0 <= k < |s| - 1 ==> s[..|s| - 1][k] == s[k];
      RPosition(s[..|s| - 1], p)
  }

  function LastRealUser(conv: seq<Item>): Option<nat> {
    RPosition(conv, IsRealUserTurn)
  }

  function ExtractLastRealUserQuery(conv: seq<Item>): Option<string> {
    var last := LastRealUser(conv);
    if last.Some? then Some(QueryOf(conv[last.value])) else None
  }

  // ---- the recent messages ----

  /** An Assistant as it is, a result with a placeholder, nothing else. */
  function Kept(item: Item): seq<Item> {
    match item
    case Assistant(_, _) => [item]
    case ToolResult(id, _, _) => [ToolResult(id, OMITTED, [])]
    case _ => []
  }

  function Condensed(items: seq<Item>): seq<Item> {
    if items == [] then [] else Kept(items[0]) + Condensed(items[1..])
  }

  /** What follows the last real user turn. */
  function Tail(conv: seq<Item>): seq<Item> {
    var last := LastRealUser(conv);
    if last.Some? then conv[last.value + 1..] else conv
  }

  function ExtractMessagesSinceLastRealUser(conv: seq<Item>): seq<Item> {
    Condensed(Tail(conv))
  }

  datatype StateContext = StateContext(recentMessages: seq<Item>, lastUserQuery: Option<string>)

  function ContextOf(conv: seq<Item>): StateContext {
    StateContext(ExtractMessagesSinceLastRealUser(conv), ExtractLastRealUserQuery(conv))
  }

  // ---- the compacted history ----

  datatype CompactedInput = CompactedInput(
    systemMessage: Item,
    userMessagePrefix: string,
    agentsMdReminder: Option<string>,
    stateContext: StateContext,
    compactionSummary: string,
    systemReminder: Option<string>,
    transcriptHint: Option<string>)

  function UserMeta(text: string): Item {
    User([TextPart(text)], Some(CompactionMeta))
  }

  function PlainUser(text: string): Item {
    User([TextPart(text)], None)
  }

  function FormatCompactSummaryContent(raw: string): string {
    SUMMARY_PREAMBLE + CompactSummary.Formatted(raw)
  }

  /** The items before the recent messages: metadata, then the wrapped query. */
  function Preface(input: CompactedInput): seq<Item> {
    [input.systemMessage, UserMeta(input.userMessagePrefix)]
    + (if input.agentsMdReminder.Some?
       then [User([TextPart(input.agentsMdReminder.value)], Some(ProjectInstructions))] else [])
  }

  function WrappedQuery(input: CompactedInput): seq<Item> {
    var q := input.stateContext.lastUserQuery;
    if q.Some? then [PlainUser(WrapUserQuery(q.value))] else []
  }

  /** The items after them: the summary, then the reminder. */
  function Closing(input: CompactedInput): seq<Item> {
    [UserMeta(FormatCompactSummaryContent(input.compactionSummary)
              + if input.transcriptHint.Some? then input.transcriptHint.value else "")]
    + (if input.systemReminder.Some?
       then [User([TextPart(input.systemReminder.value)], Some(SystemReminder))] else [])
  }

  function Compacted(input: CompactedInput): seq<Item> {
    Preface(input) + WrappedQuery(input) + input.stateContext.recentMessages + Closing(input)
  }

  method BuildCompactedHistory(input: CompactedInput) returns (compacted: seq<Item>)
    ensures compacted == Compacted(input)
  {
    hide FormatCompactSummaryContent, WrapUserQuery, Preface, WrappedQuery, Closing;
    var formattedSummary := FormatCompactSummaryContent(input.compactionSummary);
    if input.transcriptHint.Some? {
      formattedSummary := formattedSummary + input.transcriptHint.value;
    }
    var summaryItem := UserMeta(formattedSummary);
    Pushes(input, formattedSummary);
    compacted := [input.systemMessage, UserMeta(input.userMessagePrefix)];
    if input.agentsMdReminder.Some? {
      compacted := compacted + [User([TextPart(input.agentsMdReminder.value)], Some(ProjectInstructions))];
    }
    assert compacted == Preface(input);
    if input.stateContext.lastUserQuery.Some? {
      compacted := compacted + [PlainUser(WrapUserQuery(input.stateContext.lastUserQuery.value))];
    }
    assert compacted == Preface(input) + WrappedQuery(input);
    var recents := input.stateContext.recentMessages;
    compacted := PushAll(compacted, recents);
    if input.systemReminder.Some? {
      compacted := compacted + [summaryItem] + [User([TextPart(input.systemReminder.value)], Some(SystemReminder))];
      assert compacted == Preface(input) + WrappedQuery(input) + recents + Closing(input);
    } else {
      compacted := compacted + [summaryItem];
    }
  }

  /** The history, item by item, with the texts that stand in it. */
  lemma CompactedItems(input: CompactedInput)
    ensures var q, recents := input.stateContext.lastUserQuery, input.stateContext.recentMessages;
            Compacted(input)
            == [input.systemMessage, User([TextPart(input.userMessagePrefix)], Some(CompactionMeta))]
               + (match input.agentsMdReminder
                  case Some(reminder) => [User([TextPart(reminder)], Some(ProjectInstructions))]
                  case None => [])
               + (match q
                  case Some(text) => [User([TextPart("<user_query>\n" + text + "\n</user_query>")], None)]
                  case None => [])
               + recents
               + [User([TextPart(SummaryItemText(input))], Some(CompactionMeta))]
               + (match input.systemReminder
                  case Some(reminder) => [User([TextPart(reminder)], Some(SystemReminder))]
                  case None => [])
  {
    PiecesAre(input);
    hide *;
    CompactedIs(input);
  }

  lemma CompactedIs(input: CompactedInput)
    ensures Compacted(input)
         == Preface(input) + WrappedQuery(input) + input.stateContext.recentMessages + Closing(input)
  {
    hide Preface, WrappedQuery, Closing;
  }

  lemma PiecesAre(input: CompactedInput)
    ensures Preface(input)
         == [input.systemMessage, User([TextPart(input.userMessagePrefix)], Some(CompactionMeta))]
            + (match input.agentsMdReminder
               case Some(reminder) => [User([TextPart(reminder)], Some(ProjectInstructions))]
               case None => [])
    ensures WrappedQuery(input)
         == (match input.stateContext.lastUserQuery
             case Some(text) => [User([TextPart("<user_query>\n" + text + "\n</user_query>")], None)]
             case None => [])
    ensures Closing(input)
         == [User([TextPart(SummaryItemText(input))], Some(CompactionMeta))]
            + (match input.systemReminder
               case Some(reminder) => [User([TextPart(reminder)], Some(SystemReminder))]
               case None => [])
  {
    SummaryItemIs(input);
    if input.stateContext.lastUserQuery.Some? { WrappedText(input.stateContext.lastUserQuery.value); }
    hide FormatCompactSummaryContent, SummaryItemText, WrapUserQuery;
  }

  lemma WrappedText(q: string)
    ensures WrapUserQuery(q) == "<user_query>\n" + q + "\n</user_query>"
  {
    var open: string, close: string := "<user_query>", "</user_query>";
    assert QUERY_OPEN == open && QUERY_CLOSE == close;
    assert "<user_query>\n" == open + "\n" && "\n</user_query>" == "\n" + close;
    hide QUERY_OPEN, QUERY_CLOSE;
  }

  /** The text behind the recent messages: the preamble, the cleaned summary, and the hint. */
  function SummaryItemText(input: CompactedInput): string {
    "This session is being continued from a previous conversation that ran out of context. "
    + "The summary below covers the earlier portion of the conversation.\n\n"
    + CompactSummary.Formatted(input.compactionSummary)
    + (if input.transcriptHint.Some? then input.transcriptHint.value else "")
  }

  lemma SummaryItemIs(input: CompactedInput)
    ensures Closing(input) != [] && Closing(input)[0] == User([TextPart(SummaryItemText(input))], Some(CompactionMeta))
  {
    hide CompactSummary.Formatted;
  }

  /** A clean summary stands to the letter in the one item right behind the recent messages. */
  lemma SummaryStands(input: CompactedInput)
    requires CleanSummary.Clean(input.compactionSummary)
    ensures var recents, at := input.stateContext.recentMessages,
                               2 + (if input.agentsMdReminder.Some? then 1 else 0)
                                 + (if input.stateContext.lastUserQuery.Some? then 1 else 0)
                                 + |input.stateContext.recentMessages|;
            && at < |Compacted(input)|
            && var hint := if input.transcriptHint.Some? then input.transcriptHint.value else "";
               Compacted(input)[at]
               == User([TextPart(SUMMARY_PREAMBLE + input.compactionSummary + hint)], Some(CompactionMeta))
  {
    hide SummaryItemText, Compacted, CleanSummary.Clean, CompactSummary.Formatted, SUMMARY_PREAMBLE;
    CompactedItems(input);
    CleanSummary.CleanIsFixpoint(input.compactionSummary);
    SummaryItemClean(input);
  }

  lemma SummaryItemClean(input: CompactedInput)
    requires CompactSummary.Formatted(input.compactionSummary) == input.compactionSummary
    ensures SummaryItemText(input) == SUMMARY_PREAMBLE + input.compactionSummary
                                      + if input.transcriptHint.Some? then input.transcriptHint.value else ""
  {
    hide CompactSummary.Formatted;
  }

  method PushAll(to: seq<Item>, from: seq<Item>) returns (all: seq<Item>)
    ensures all == to + from
  {
    all := to;
    for i := 0 to |from|
      invariant all == to + from[..i]
    {
      assert from[..i + 1] == from[..i] + [from[i]];
      all := all + [from[i]];
    }
    assert from[..|from|] == from;
  }

  /** The pieces of the compacted history, push by push. */
  lemma Pushes(input: CompactedInput, summary: string)
    requires summary == FormatCompactSummaryContent(input.compactionSummary)
                        + if input.transcriptHint.Some? then input.transcriptHint.value else ""
    ensures var first := [input.systemMessage, UserMeta(input.userMessagePrefix)];
            Preface(input) == if input.agentsMdReminder.Some?
                              then first + [User([TextPart(input.agentsMdReminder.value)], Some(ProjectInstructions))]
                              else first
    ensures WrappedQuery(input) == if input.stateContext.lastUserQuery.Some?
                                   then [PlainUser(WrapUserQuery(input.stateContext.lastUserQuery.value))] else []
    ensures Closing(input) == if input.systemReminder.Some?
                              then [UserMeta(summary)]
                                   + [User([TextPart(input.systemReminder.value)], Some(SystemReminder))]
                              else [UserMeta(summary)]
  {
    hide FormatCompactSummaryContent, WrapUserQuery;
  }

  // ---- condensing keeps what pairing depends on ----

  lemma CondensedStep(x: Item, s: seq<Item>)
    ensures Condensed([x] + s) == Kept(x) + Condensed(s)
    ensures Condensed([]) == []
  {
    assert ([x] + s)[1..] == s;
  }

  lemma {:induction false} CondensedConcat(a: seq<Item>, b: seq<Item>)
    ensures Condensed(a + b) == Condensed(a) + Condensed(b)
  {
    hide *;
    if a == [] {
      assert a + b == b;
      CondensedStep(System(""), []);
    } else {
      CondensedConcat(a[1..], b);
      CondensedStep(a[0], a[1..]);
      CondensedStep(a[0], a[1..] + b);
      assert a == [a[0]] + a[1..] && a + b == [a[0]] + (a[1..] + b);
    }
  }

  lemma CondensedKept(x: Item)
    ensures Condensed(Kept(x)) == Kept(x)
  {
  }

  lemma {:induction false} CondensedTwice(s: seq<Item>)
    ensures Condensed(Condensed(s)) == Condensed(s)
  {
    if s != [] {
      CondensedTwice(s[1..]);
      CondensedKept(s[0]);
      CondensedConcat(Kept(s[0]), Condensed(s[1..]));
    }
  }

  /** The lax rule as a left-to-right scan that has seen the ids `seen`. */
  predicate LaxFrom(seen: set<string>, s: seq<Item>)
    decreases |s|
  {
    s == [] || ((s[0].ToolResult? ==> s[0].callId in seen) && LaxFrom(seen + DeclaredIds(s[0]), s[1..]))
  }

  /** Result `i` of `s` is declared in `seen` or earlier in `s`. */
  predicate DeclaredIn(seen: set<string>, s: seq<Item>, i: nat)
    requires i < |s|
  {
    s[i].ToolResult? ==> s[i].callId in seen || exists j :: 0 <= j < i && Declares(s[j], s[i].callId)
  }

  lemma DeclaredInShift(seen: set<string>, s: seq<Item>, i: nat)
    requires 1 <= i < |s|
    ensures DeclaredIn(seen, s, i) <==> DeclaredIn(seen + DeclaredIds(s[0]), s[1..], i - 1)
  {
    if s[i].ToolResult? {
      var id := s[i].callId;
      assert s[1..][i - 1] == s[i];
      if j :| 0 <= j < i && Declares(s[j], id) && j > 0 {
        assert s[1..][j - 1] == s[j];
      }
      if j :| 0 <= j < i - 1 && Declares(s[1..][j], id) {
        assert s[1..][j] == s[j + 1];
      }
    }
  }

  lemma {:induction false} LaxFromIs(seen: set<string>, s: seq<Item>)
    ensures LaxFrom(seen, s) <==> forall i :: 0 <= i < |s| ==> DeclaredIn(seen, s, i)
    decreases |s|
  {
    if s != [] {
      hide Declares;
      var seen' := seen + DeclaredIds(s[0]);
      LaxFromIs(seen', s[1..]);
      forall i | 1 <= i < |s| ensures DeclaredIn(seen, s, i) <==> DeclaredIn(seen', s[1..], i - 1) {
        DeclaredInShift(seen, s, i);
      }
      if forall i :: 0 <= i < |s| ==> DeclaredIn(seen, s, i) {
        assert DeclaredIn(seen, s, 0);
        forall k | 0 <= k < |s[1..]| ensures DeclaredIn(seen', s[1..], k) {
          assert DeclaredIn(seen, s, k + 1);
        }
      }
      if LaxFrom(seen, s) {
        assert DeclaredIn(seen, s, 0);
        forall i | 1 <= i < |s| ensures DeclaredIn(seen, s, i) {
          assert DeclaredIn(seen', s[1..], i - 1);
        }
      }
    }
  }

  lemma LaxIsScan(s: seq<Item>)
    ensures LaxlyPaired(s) <==> LaxFrom({}, s)
  {
    LaxFromIs({}, s);
    assert forall i :: 0 <= i < |s| ==> (DeclaredIn({}, s, i) <==> DeclaredEarlier(s, i));
  }

  lemma {:induction false} LaxFromCondensed(seen: set<string>, s: seq<Item>)
    ensures LaxFrom(seen, Condensed(s)) <==> LaxFrom(seen, s)
    decreases |s|
  {
    if s != [] {
      hide Declares;
      LaxFromCondensed(seen + DeclaredIds(s[0]), s[1..]);
      var tail := Condensed(s[1..]);
      match s[0]
      case Assistant(_, _) =>
        assert Condensed(s) == [s[0]] + tail;
        assert Condensed(s)[1..] == tail;
      case ToolResult(id, _, _) =>
        var r := ToolResult(id, OMITTED, []);
        assert Condensed(s) == [r] + tail;
        assert Condensed(s)[1..] == tail;
        assert seen + {} == seen;
      case _ =>
        assert Condensed(s) == tail;
        assert seen + {} == seen;
    }
  }

  /** The lax rule sees nothing that condensing changes. */
  lemma LaxCondensed(s: seq<Item>)
    ensures LaxlyPaired(Condensed(s)) <==> LaxlyPaired(s)
  {
    LaxIsScan(s);
    LaxIsScan(Condensed(s));
    LaxFromCondensed({}, s);
  }

  // ---- main results ----

  /** Condensing the compacted history leaves the recent messages, behind the system message
      if that is itself a call or a result. */
  lemma CondensedCompacted(input: CompactedInput)
    ensures Condensed(Compacted(input)) == Kept(input.systemMessage) + Condensed(input.stateContext.recentMessages)
    ensures Condensed(input.stateContext.recentMessages + Closing(input))
         == Condensed(input.stateContext.recentMessages)
  {
    hide *;
    var opening, closing := Preface(input) + WrappedQuery(input), Closing(input);
    var recents := input.stateContext.recentMessages;
    UsersAround(input);
    var rest := opening[1..];
    assert opening == [input.systemMessage] + rest;
    NothingToCondense(rest);
    NothingToCondense(closing);
    CondensedStep(input.systemMessage, rest);
    assert Compacted(input) == opening + (recents + closing) by { CompactedParts(input); }
    CondensedConcat(recents, closing);
    CondensedConcat(opening, recents + closing);
    assert Kept(input.systemMessage) + [] == Kept(input.systemMessage);
  }

  lemma UsersAround(input: CompactedInput)
    ensures var opening := Preface(input) + WrappedQuery(input);
            opening != [] && opening[0] == input.systemMessage
            && forall k :: 0 <= k < |opening[1..]| ==> opening[1..][k].User?
    ensures forall k :: 0 <= k < |Closing(input)| ==> Closing(input)[k].User?
  {
    hide FormatCompactSummaryContent, WrapUserQuery;
  }

  lemma CompactedParts(input: CompactedInput)
    ensures Compacted(input)
         == Preface(input) + WrappedQuery(input) + input.stateContext.recentMessages + Closing(input)
  {
  }

  lemma {:induction false} NothingToCondense(s: seq<Item>)
    requires forall k :: 0 <= k < |s| ==> s[k].User?
    ensures Condensed(s) == []
  {
    if s != [] {
      NothingToCondense(s[1..]);
    }
  }

  /** The compacted history validates exactly when the results after the last real user turn
      are declared after it, or by the system message, which must not be a result itself. */
  lemma CompactionValidIff(conv: seq<Item>, input: CompactedInput)
    requires input.stateContext == ContextOf(conv)
    ensures InvalidIds(Compacted(input)) == [] <==> LaxlyPaired([input.systemMessage] + Tail(conv))
    ensures Kept(input.systemMessage) == [] ==> (InvalidIds(Compacted(input)) == [] <==> LaxlyPaired(Tail(conv)))
  {
    hide *;
    ContextIs(conv);
    var c, tail, sys := Compacted(input), Tail(conv), input.systemMessage;
    ValidIffLaxlyPaired(c);
    LaxCondensed(c);
    CondensedCompacted(input);
    CondensedTwice(tail);
    CondensedStep(sys, tail);
    LaxCondensed([sys] + tail);
    LaxCondensed(tail);
    assert Kept(sys) == [] ==> Kept(sys) + Condensed(tail) == Condensed(tail);
  }

  /** Every result has an earlier declaring Assistant with no real user turn between them. */
  ghost predicate PairsWithinTurn(conv: seq<Item>) {
    forall i :: 0 <= i < |conv| && conv[i].ToolResult? ==>
      exists j :: 0 <= j < i && Declares(conv[j], conv[i].callId) && forall k :: j < k < i ==> !IsRealUserTurn(conv[k])
  }

  lemma TailIs(conv: seq<Item>) returns (from: nat)
    ensures from <= |conv| && Tail(conv) == conv[from..]
    ensures forall k :: from <= k < |conv| ==> !IsRealUserTurn(conv[k])
    ensures from > 0 ==> IsRealUserTurn(conv[from - 1])
  {
    hide IsRealUserTurn, RPosition;
    var last := LastRealUser(conv);
    from := if last.Some? then last.value + 1 else 0;
  }

  /** Synthetic user items may split a pair: the compacted history still validates. */
  lemma CompactionValid(conv: seq<Item>, input: CompactedInput)
    requires !input.systemMessage.ToolResult? && input.stateContext == ContextOf(conv) && PairsWithinTurn(conv)
    ensures InvalidIds(Compacted(input)) == []
  {
    hide *;
    CompactionValidIff(conv, input);
    TailPaired(conv);
    LaxBehind(input.systemMessage, Tail(conv));
  }

  lemma LaxBehind(item: Item, s: seq<Item>)
    requires !item.ToolResult? && LaxlyPaired(s)
    ensures LaxlyPaired([item] + s)
  {
    hide Declares;
    var all := [item] + s;
    forall i | 0 <= i < |all| ensures DeclaredEarlier(all, i) {
      if i > 0 {
        assert all[i] == s[i - 1] && DeclaredEarlier(s, i - 1);
        if all[i].ToolResult? {
          var j :| 0 <= j < i - 1 && Declares(s[j], s[i - 1].callId);
          assert all[j + 1] == s[j];
        }
      }
    }
  }

  lemma TailPaired(conv: seq<Item>)
    requires PairsWithinTurn(conv)
    ensures LaxlyPaired(Tail(conv))
  {
    hide IsRealUserTurn, LastRealUser, Tail, Declares;
    var from := TailIs(conv);
    var tail := Tail(conv);
    forall i | 0 <= i < |tail| ensures DeclaredEarlier(tail, i) {
      assert tail[i] == conv[from + i];
      if tail[i].ToolResult? {
        var id := tail[i].callId;
        var j :| 0 <= j < from + i && Declares(conv[j], id)
                 && forall k :: j < k < from + i ==> !IsRealUserTurn(conv[k]);
        NotAUser(conv[j], id);
        assert j >= from;
        assert tail[j - from] == conv[j];
      }
    }
  }

  lemma NotAUser(item: Item, id: string)
    requires Declares(item, id)
    ensures !IsRealUserTurn(item)
  {
  }

  lemma SingleText(text: string)
    ensures QueryOf(PlainUser(text)) == ExtractUserQuery(text)
    ensures IsRealUserTurn(PlainUser(text)) <==> !IsSyntheticExtractedQuery(ExtractUserQuery(text))
  {
    hide ExtractUserQuery, IsSyntheticExtractedQuery;
    var parts := [TextPart(text)];
    assert parts[1..] == [] && Texts([]) == [];
    assert Texts(parts) == [text];
  }

  lemma LastRealIs(conv: seq<Item>, n: nat)
    requires n < |conv| && IsRealUserTurn(conv[n]) && forall k :: n < k < |conv| ==> !IsRealUserTurn(conv[k])
    ensures LastRealUser(conv) == Some(n)
  {
    hide IsRealUserTurn, RPosition;
    var r := LastRealUser(conv);
  }

  lemma RPositionHolds(conv: seq<Item>)
    ensures var r := LastRealUser(conv);
            if r.Some? then r.value < |conv| && IsRealUserTurn(conv[r.value])
            else forall k :: 0 <= k < |conv| ==> !IsRealUserTurn(conv[k])
  {
    hide IsRealUserTurn, RPosition;
  }

  /** Besides the system message and the wrapped query, nothing is a real user turn. */
  lemma OthersAreSynthetic(input: CompactedInput)
    requires forall k :: 0 <= k < |input.stateContext.recentMessages| ==> !input.stateContext.recentMessages[k].User?
    ensures Preface(input) != [] && Preface(input)[0] == input.systemMessage
    ensures forall k :: 1 <= k < |Preface(input)| ==> !IsRealUserTurn(Preface(input)[k])
    ensures forall k :: 0 <= k < |Closing(input)| ==> !IsRealUserTurn(Closing(input)[k])
    ensures var recents := input.stateContext.recentMessages;
            forall k :: 0 <= k < |recents| ==> !IsRealUserTurn(recents[k])
    ensures WrappedQuery(input) == if input.stateContext.lastUserQuery.Some?
                                   then [PlainUser(WrapUserQuery(input.stateContext.lastUserQuery.value))] else []
  {
    hide QueryOf, IsSyntheticExtractedQuery, WrapUserQuery, FormatCompactSummaryContent;
  }

  /** The query, wrapped, is a real user turn again. */
  predicate QueryIsReal(q: Option<string>) {
    q.Some? && IsRealUserTurn(PlainUser(WrapUserQuery(q.value)))
  }

  /** The last real user turn of the compacted history is the wrapped query, or the system
      message. */
  lemma LastRealOfCompacted(input: CompactedInput)
    requires forall k :: 0 <= k < |input.stateContext.recentMessages| ==> !input.stateContext.recentMessages[k].User?
    ensures var c, q, n := Compacted(input), input.stateContext.lastUserQuery, |Preface(input)|;
            && c != [] && c[0] == input.systemMessage
            && LastRealUser(c)
               == (if QueryIsReal(q) then Some(n) else if IsRealUserTurn(input.systemMessage) then Some(0) else None)
            && (q.Some? ==> n < |c| && c[n] == PlainUser(WrapUserQuery(q.value))
                            && c[n + 1..] == input.stateContext.recentMessages + Closing(input))
  {
    hide *;
    OthersAreSynthetic(input);
    CompactedParts(input);
    var c, q, n := Compacted(input), input.stateContext.lastUserQuery, |Preface(input)|;
    var recents := input.stateContext.recentMessages;
    var w := |WrappedQuery(input)|;
    forall k | 1 <= k < |c| && !(q.Some? && k == n) ensures !IsRealUserTurn(c[k]) {
      if k < n {
        assert c[k] == Preface(input)[k];
      } else if k >= n + w + |recents| {
        assert c[k] == Closing(input)[k - n - w - |recents|];
      } else {
        assert c[k] == recents[k - n - w];
      }
    }
    RPositionHolds(c);
    QueryIsRealIs(q);
    if QueryIsReal(q) {
      LastRealIs(c, n);
    } else if IsRealUserTurn(c[0]) {
      LastRealIs(c, 0);
    }
  }

  lemma QueryIsRealIs(q: Option<string>)
    ensures QueryIsReal(q) <==> q.Some? && IsRealUserTurn(PlainUser(WrapUserQuery(q.value)))
  {
  }

  lemma {:induction false} CondensedHasNoUsers(s: seq<Item>)
    ensures forall k :: 0 <= k < |Condensed(s)| ==> !Condensed(s)[k].User?
  {
    if s != [] {
      CondensedHasNoUsers(s[1..]);
    }
  }

  /** Extracting again from the compacted history returns the same recent messages, exactly when
      the system message is no call or result, or the wrapped query cuts it off. */
  lemma RecentMessagesSurvive(conv: seq<Item>, input: CompactedInput)
    requires input.stateContext == ContextOf(conv)
    ensures ExtractMessagesSinceLastRealUser(Compacted(input)) == ExtractMessagesSinceLastRealUser(conv)
       <==> Kept(input.systemMessage) == [] || QueryIsReal(input.stateContext.lastUserQuery)
  {
    hide *;
    ContextIs(conv);
    var c, sys := Compacted(input), input.systemMessage;
    CondensedHasNoUsers(Tail(conv));
    CondensedTwice(Tail(conv));
    CondensedCompacted(input);
    LastRealOfCompacted(input);
    TailFrom(c);
    TailFrom(conv);
    RealIsKeptOut(sys);
    QueryIsRealIs(input.stateContext.lastUserQuery);
    if LastRealUser(c) == Some(0) {
      assert c == [sys] + c[1..];
      CondensedStep(sys, c[1..]);
    }
    assert |Kept(sys) + Condensed(Tail(conv))| == |Kept(sys)| + |Condensed(Tail(conv))|;
    assert [] + Condensed(Tail(conv)) == Condensed(Tail(conv));
  }

  lemma TailFrom(conv: seq<Item>)
    ensures var last := LastRealUser(conv);
            ExtractMessagesSinceLastRealUser(conv)
            == Condensed(if last.Some? && last.value < |conv| then conv[last.value + 1..] else conv)
    ensures ExtractMessagesSinceLastRealUser(conv) == Condensed(Tail(conv))
  {
    hide IsRealUserTurn, RPosition, Condensed;
  }

  lemma RealIsKeptOut(item: Item)
    ensures IsRealUserTurn(item) ==> Kept(item) == []
  {
  }

  /** The wrapped query is no real turn, but the system message is one, with that very query. */
  predicate StandsIn(sys: Item, q: string) {
    IsSyntheticExtractedQuery(ExtractUserQuery(WrapUserQuery(q))) && IsRealUserTurn(sys) && QueryOf(sys) == q
  }

  /** The query survives compaction exactly when wrapping and extracting returns it and it is
      not one of the synthetic texts, or when the system message stands in for it. */
  lemma LastQuerySurvivesIff(input: CompactedInput, q: string)
    requires input.stateContext.lastUserQuery == Some(q)
    requires forall k :: 0 <= k < |input.stateContext.recentMessages| ==> !input.stateContext.recentMessages[k].User?
    ensures ExtractLastRealUserQuery(Compacted(input)) == Some(q)
       <==> (RoundTrips(q) && !IsSyntheticExtractedQuery(q)) || StandsIn(input.systemMessage, q)
    ensures QueryIsReal(Some(q)) <==> !IsSyntheticExtractedQuery(ExtractUserQuery(WrapUserQuery(q)))
  {
    SingleText(WrapUserQuery(q));
    hide Compacted, WrapUserQuery, ExtractUserQuery, RoundTrips, IsSyntheticExtractedQuery, Condensed;
    hide QueryOf, IsRealUserTurn;
    LastRealOfCompacted(input);
    QueryRoundTrip(q);
  }

  lemma LastQueryIsTrimmed(conv: seq<Item>)
    ensures ExtractLastRealUserQuery(conv).Some? ==> Trimmed(ExtractLastRealUserQuery(conv).value)
  {
    hide ExtractUserQuery, TextContent, RPosition, Trimmed;
    var last := LastRealUser(conv);
    if last.Some? {
      ExtractedIsTrimmed(TextContent(conv[last.value].parts));
    }
  }

  lemma ExtractedIsTrimmed(text: string)
    ensures Trimmed(ExtractUserQuery(text))
  {
    hide StripTags, TrimBy, Find;
    StripIsTrimmed(text);
    var start := Find(text, QUERY_OPEN);
    if start.Some? {
      var rest := text[start.value + |QUERY_OPEN|..];
      var end := Find(rest, QUERY_CLOSE);
      if end.Some? { StripIsTrimmed(Trim(rest[..end.value])); }
    }
  }

  /** Neither a call nor a result nor a real user turn: a System item, say. */
  predicate Inert(item: Item) {
    Kept(item) == [] && !IsRealUserTurn(item)
  }

  /** A caller-checkable condition on the query under which compaction keeps it. */
  predicate Durable(q: string) {
    !Contains(q, QUERY_CLOSE) && NoPairs(q, SYSTEM_TAGS) && !IsSyntheticExtractedQuery(q)
  }

  /** Compacting the compacted history sees the very same context, exactly when the conversation
      has a durable query or one the system message stands in for, or when it has no real query
      and the system message is inert. */
  lemma ContextSurvivesIff(conv: seq<Item>, input: CompactedInput)
    requires input.stateContext == ContextOf(conv)
    ensures ContextOf(Compacted(input)) == ContextOf(conv)
       <==> match ExtractLastRealUserQuery(conv)
            case Some(q) => Durable(q) || StandsIn(input.systemMessage, q)
            case None => Inert(input.systemMessage)
  {
    hide *;
    ContextIs(conv);
    ContextIs(Compacted(input));
    TailFrom(conv);
    TailFrom(Compacted(input));
    RecentMessagesSurvive(conv, input);
    CondensedHasNoUsers(Tail(conv));
    InertIs(input.systemMessage);
    match ExtractLastRealUserQuery(conv)
    case Some(q) =>
      LastQuerySurvivesIff(input, q);
      LastQueryIsTrimmed(conv);
      DurableIs(q);
      StandsInIs(input.systemMessage, q);
      RealIsKeptOut(input.systemMessage);
      RoundTripped(q);
    case None =>
      LastRealOfCompacted(input);
      QueryIsRealIs(None);
      QueryFrom(Compacted(input));
  }

  lemma InertIs(item: Item)
    ensures Inert(item) <==> Kept(item) == [] && !IsRealUserTurn(item)
  {
    hide Kept, IsRealUserTurn;
  }

  lemma DurableIs(q: string)
    ensures Durable(q) && Trimmed(q) <==> RoundTrips(q) && !IsSyntheticExtractedQuery(q)
  {
    hide Contains, NoPairs, Trimmed, IsSyntheticExtractedQuery, SYSTEM_TAGS;
  }

  lemma RoundTripped(q: string)
    ensures RoundTrips(q) ==> ExtractUserQuery(WrapUserQuery(q)) == q
  {
    hide ExtractUserQuery, WrapUserQuery, RoundTrips;
    QueryRoundTrip(q);
  }

  lemma StandsInIs(sys: Item, q: string)
    ensures StandsIn(sys, q) ==> IsRealUserTurn(sys)
  {
    hide IsRealUserTurn, QueryOf, ExtractUserQuery, WrapUserQuery, IsSyntheticExtractedQuery;
  }

  /** An image-only prompt anchors the boundary once, but its empty query does not
      survive compaction as a real turn: only the system message could be one. */
  lemma ImageOnlyQueryIsLost(url: string, input: CompactedInput)
    requires input.stateContext == ContextOf([User([ImagePart(url)], None)])
    ensures ExtractLastRealUserQuery([User([ImagePart(url)], None)]) == Some("")
    ensures ExtractLastRealUserQuery(Compacted(input))
         == if IsRealUserTurn(input.systemMessage) then Some(QueryOf(input.systemMessage)) else None
  {
    ImageTurn(url);
    hide *;
    var conv := [User([ImagePart(url)], None)];
    ContextIs(conv);
    CondensedHasNoUsers(Tail(conv));
    LastRealOfCompacted(input);
    QueryRoundTrip("");
    EmptyRoundTrips();
    SingleText(WrapUserQuery(""));
    EmptyIsSynthetic();
    QueryIsRealIs(Some(""));
    QueryFrom(Compacted(input));
  }

  lemma ContextIs(conv: seq<Item>)
    ensures ContextOf(conv) == StateContext(Condensed(Tail(conv)), ExtractLastRealUserQuery(conv))
  {
    hide Condensed, Tail, ExtractLastRealUserQuery;
  }

  lemma QueryFrom(conv: seq<Item>)
    ensures var last := LastRealUser(conv);
            ExtractLastRealUserQuery(conv) == if last.Some? then Some(QueryOf(conv[last.value])) else None
  {
    hide RPosition, IsRealUserTurn, QueryOf;
  }

  lemma EmptyIsSynthetic()
    ensures IsSyntheticExtractedQuery("")
  {
  }

  lemma ImageTurn(url: string)
    ensures ExtractLastRealUserQuery([User([ImagePart(url)], None)]) == Some("")
  {
    var item := User([ImagePart(url)], None);
    EmptyQuery();
    hide ExtractUserQuery, RPosition;
    assert item.parts[0].ImagePart?;
    assert item.parts[1..] == [] && Texts([]) == [];
    assert TextContent(item.parts) == "";
    assert IsRealUserTurn(item);
    LastRealIs([item], 0);
  }

  lemma EmptyQuery()
    ensures ExtractUserQuery("") == ""
  {
    hide StripSystemTags;
    StripSystemTagsFixed("");
    EmptyRoundTrips();
  }

  lemma EmptyRoundTrips()
    ensures RoundTrips("")
  {
  }

  // ---- which messages are recent ----

  /** The item is an Assistant or a result, and no real user turn stands at it or behind it. */
  predicate Recent(conv: seq<Item>, i: nat)
    requires i < |conv|
  {
    (conv[i].Assistant? || conv[i].ToolResult?) && forall j :: i <= j < |conv| ==> !IsRealUserTurn(conv[j])
  }

  /** How it is kept: an Assistant as it is, a result with a placeholder for its content. */
  function KeptAs(item: Item): Item {
    if item.ToolResult? then ToolResult(item.callId, "Tool call omitted...", []) else item
  }

  predicate CondensedAt(items: seq<Item>, at: seq<nat>) {
    && Ascending(at, |items|) && |Condensed(items)| == |at|
    && (forall i: nat :: i < |items| ==> (i in at <==> items[i].Assistant? || items[i].ToolResult?))
    && (forall k :: 0 <= k < |at| ==> at[k] < |items| && Condensed(items)[k] == KeptAs(items[at[k]]))
  }

  lemma {:induction false} CondensedSnoc(items: seq<Item>, item: Item)
    ensures Condensed(items + [item]) == Condensed(items) + Kept(item)
  {
    hide Kept;
    CondensedConcat(items, [item]);
    CondensedStep(item, []);
    assert [item] + [] == [item];
  }

  lemma KeptIs(item: Item)
    ensures Kept(item) == if item.Assistant? || item.ToolResult? then [KeptAs(item)] else []
  {
  }

  lemma CondensedAtSnoc(items: seq<Item>, at: seq<nat>, item: Item)
    requires CondensedAt(items, at)
    ensures CondensedAt(items + [item], if item.Assistant? || item.ToolResult? then at + [|items|] else at)
  {
    hide Condensed, Kept, KeptAs;
    var n, all := |items|, items + [item];
    var later := if item.Assistant? || item.ToolResult? then at + [n] else at;
    CondensedSnoc(items, item);
    KeptIs(item);
    assert forall k :: 0 <= k < |at| ==> all[at[k]] == items[at[k]] && later[k] == at[k];
    forall i: nat | i < |all| ensures i in later <==> all[i].Assistant? || all[i].ToolResult? {
      if i < n {
        assert all[i] == items[i];
        assert i in later <==> i in at;
      } else if item.Assistant? || item.ToolResult? {
        assert later[|at|] == n;
      }
    }
  }

  lemma NothingCondensed()
    ensures CondensedAt([], [])
  {
  }

  lemma {:induction false} CondensedAre(items: seq<Item>) returns (at: seq<nat>)
    ensures CondensedAt(items, at)
  {
    hide CondensedAt;
    if items == [] {
      at := [];
      NothingCondensed();
    } else {
      var n := |items| - 1;
      at := CondensedAre(items[..n]);
      CondensedAtSnoc(items[..n], at, items[n]);
      assert items == items[..n] + [items[n]];
      if items[n].Assistant? || items[n].ToolResult? { at := at + [n]; }
    }
  }

  /** The recent messages of a conversation: what is kept of each Assistant and each result that
      stands behind the last real user turn, in their order. */
  lemma RecentMessagesAre(conv: seq<Item>) returns (at: seq<nat>)
    ensures Ascending(at, |conv|) && forall i: nat :: i < |conv| ==> (i in at <==> Recent(conv, i))
    ensures |ExtractMessagesSinceLastRealUser(conv)| == |at|
    ensures forall k :: 0 <= k < |at| ==> ExtractMessagesSinceLastRealUser(conv)[k] == KeptAs(conv[at[k]])
  {
    hide Condensed, KeptAs, IsRealUserTurn, RPosition;
    var last := LastRealUser(conv);
    var from := if last.Some? then last.value + 1 else 0;
    assert Tail(conv) == conv[from..];
    var tail := CondensedAre(conv[from..]);
    at := seq(|tail|, k requires 0 <= k < |tail| => tail[k] + from);
    forall i: nat | i < |conv| ensures i in at <==> Recent(conv, i) {
      ShiftedIn(tail, from, at, i);
      if i >= from {
        assert conv[from..][i - from] == conv[i];
      } else {
        assert IsRealUserTurn(conv[from - 1]);
      }
    }
  }

  lemma ShiftedIn(tail: seq<nat>, from: nat, at: seq<nat>, i: nat)
    requires |at| == |tail| && forall k :: 0 <= k < |tail| ==> at[k] == tail[k] + from
    ensures i in at <==> i >= from && i - from in tail
  {
    if i >= from && i - from in tail {
      var k :| 0 <= k < |tail| && tail[k] == i - from;
      assert at[k] == i;
    }
    if i in at {
      var k :| 0 <= k < |at| && at[k] == i;
      assert tail[k] == i - from;
    }
  }
}
