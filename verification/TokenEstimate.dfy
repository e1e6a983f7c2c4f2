/** The token estimator that both fires compaction and budgets it, and how close
    the cut tail unit comes to its budget under it. */
module TokenEstimate {
  import opened Options
  import opened Conversation
  import opened Turns
  import opened Utf8
  import opened TextCut
  import opened BudgetFit

  const IMAGE_TOKEN_ESTIMATE: nat := 765

  predicate IsCjk(c: char) {
    var n := c as int;
    0x2E80 <= n <= 0x9FFF || 0xF900 <= n <= 0xFAFF || 0xFF00 <= n <= 0xFFEF
  }

  /** Bytes of ASCII characters, CJK characters, and bytes of the rest. */
  datatype Census = Census(ascii: nat, cjk: nat, other: nat)

  function Count(s: string): Census {
    if s == "" then Census(0, 0, 0)
    else
      var rest, c := Count(s[1..]), s[0];
      if c as int < 0x80 then rest.(ascii := rest.ascii + 1)
      else if IsCjk(c) then rest.(cjk := rest.cjk + 1)
      else rest.(other := rest.other + |EncodeChar(c)|)
  }

  function Tokens(n: Census): nat {
    n.ascii / 4 + (n.cjk * 3 + 4) / 5 + n.other / 4
  }

  function EstimateText(s: string): nat {
    Tokens(Count(s))
  }

  function EstimateParts(parts: seq<ContentPart>): nat {
    if parts == [] then 0
    else (if parts[0].TextPart? then EstimateText(parts[0].text) else IMAGE_TOKEN_ESTIMATE) + EstimateParts(parts[1..])
  }

  function EstimateCalls(calls: seq<ToolCall>): nat {
    if calls == [] then 0 else EstimateText(calls[0].arguments) + EstimateCalls(calls[1..])
  }

  function EstimateItem(item: Item): nat {
    match item
    case System(content) => EstimateText(content)
    case User(parts, _) => EstimateParts(parts)
    case Assistant(content, calls) => EstimateText(content) + EstimateCalls(calls)
    case ToolResult(_, content, _) => EstimateText(content)
    case BackendToolCall(summary) => EstimateText(summary)
    case Reasoning(text, encrypted) => EstimateText(text) + encrypted / 4
  }

  lemma {:induction false} CensusCountsBytes(s: string)
    ensures Count(s).ascii + 3 * Count(s).cjk + Count(s).other == ByteLen(s)
  {
    if s != "" {
      CensusCountsBytes(s[1..]);
    }
  }

  /** The estimate exceeds a quarter of the bytes by less than two tokens. */
  lemma EstimateNearBytes(s: string)
    ensures EstimateText(s) <= ByteLen(s) / 4 + 1
  {
    CensusCountsBytes(s);
    hide Count, Encode;
    var n := Count(s);
    QuarterBound(n.ascii, n.cjk, n.other);
  }

  lemma QuarterBound(a: nat, c: nat, o: nat)
    ensures a / 4 + (c * 3 + 4) / 5 + o / 4 <= (a + 3 * c + o) / 4 + 1
  {
  }

  /** Content bytes of the results in `items`. */
  function ResultBytes(items: seq<Item>): nat {
    if items == [] then 0
    else (if items[0].ToolResult? then ByteLen(items[0].content) else 0) + ResultBytes(items[1..])
  }

  ghost predicate ModestResults(items: seq<Item>) {
    forall k :: 0 <= k < |items| ==> items[k].ToolResult? && ByteLen(items[k].content) < 100_000_000
  }

  lemma CutResultBytes(item: Item, maxTokens: nat)
    requires item.ToolResult? && ByteLen(item.content) < 100_000_000 && maxTokens >= 16
    ensures CutItem(item, maxTokens).ToolResult?
    ensures ByteLen(CutItem(item, maxTokens).content) <= 4 * maxTokens
    ensures EstimateItem(CutItem(item, maxTokens)) <= maxTokens + 1
  {
    hide Encode, CutText, Count;
    var maxBytes := SaturatingMul(maxTokens, 4);
    CutTextShape(item.content, maxBytes);
    if ByteLen(item.content) > maxBytes {
      CutTextBound(item.content, maxBytes);
    }
    EstimateNearBytes(CutTo(item.content, maxBytes));
  }

  lemma OneMore(n: nat, x: nat)
    requires n > 0
    ensures n * x == x + (n - 1) * x
  {
  }

  lemma {:induction false} CutAllBytes(items: seq<Item>, maxTokens: nat)
    requires ModestResults(items) && maxTokens >= 16
    ensures ResultBytes(CutAll(items, maxTokens)) <= |items| * (4 * maxTokens)
    ensures Cost(CutAll(items, maxTokens), EstimateItem) <= |items| * (maxTokens + 1)
  {
    hide CutItem, EstimateItem, Encode;
    if items != [] {
      CutResultBytes(items[0], maxTokens);
      assert ModestResults(items[1..]);
      CutAllBytes(items[1..], maxTokens);
      assert CutAll(items, maxTokens)[1..] == CutAll(items[1..], maxTokens);
      OneMore(|items|, 4 * maxTokens);
      OneMore(|items|, maxTokens + 1);
    }
  }

  lemma AddOneEach(n: nat, x: nat)
    ensures n * (x + 1) == n * x + n
  {
  }

  lemma ShareTimesCount(room: nat, n: nat)
    requires n > 0
    ensures n * (room / n) <= room
  {
  }

  /** The trailing results of `body` have an owner the budget covers and get at least 16 tokens each. */
  predicate RoomyTail(body: seq<Item>, budget: nat, cost: Item -> nat) {
    var p := TrailingStart(body);
    && p < |body|
    && OwnerCost(Owner(body, p), cost) <= budget
    && (budget - OwnerCost(Owner(body, p), cost)) / (|body| - p) >= 16
  }

  /** A roomy tail unit is its owner, if any, and its results cut to equal shares. */
  lemma RoomyTailUnit(body: seq<Item>, budget: nat, cost: Item -> nat) returns (lead: seq<Item>, share: nat, n: nat)
    requires RoomyTail(body, budget, cost)
    ensures var p := TrailingStart(body);
            && n == |body[p..]| && share >= 16 && n * share + OwnerCost(Owner(body, p), cost) <= budget
            && TailUnit(body, budget, cost) == lead + CutAll(body[p..], share)
            && Cost(lead, cost) == OwnerCost(Owner(body, p), cost) && ResultBytes(lead) == 0
  {
    hide CutAll, TrailingStart;
    var p := TrailingStart(body);
    var owner := Owner(body, p);
    n := |body| - p;
    share := (budget - OwnerCost(owner, cost)) / n;
    ShareTimesCount(budget - OwnerCost(owner, cost), n);
    lead := OwnerItems(owner);
    assert lead != [] ==> lead[1..] == [];
  }

  lemma {:induction false} ResultBytesConcat(a: seq<Item>, b: seq<Item>)
    ensures ResultBytes(a + b) == ResultBytes(a) + ResultBytes(b)
  {
    if a == [] {
      assert a + b == b;
    } else {
      assert (a + b)[1..] == a[1..] + b;
      ResultBytesConcat(a[1..], b);
    }
  }

  /** When each of the k trailing results gets at least 16 tokens, the cut results hold
      at most four bytes per token left after the owner, for any cost function. */
  lemma TailUnitBytes(body: seq<Item>, budget: nat, cost: Item -> nat)
    requires RoomyTail(body, budget, cost) && ModestResults(body[TrailingStart(body)..])
    ensures ResultBytes(TailUnit(body, budget, cost))
         <= 4 * (budget - OwnerCost(Owner(body, TrailingStart(body)), cost))
  {
    hide CutAll, ModestResults, TrailingStart, TailUnit, ResultBytes, Cost;
    var p := TrailingStart(body);
    var lead, share, n := RoomyTailUnit(body, budget, cost);
    CutAllBytes(body[p..], share);
    ResultBytesConcat(lead, CutAll(body[p..], share));
    assert n * (4 * share) == 4 * (n * share);
  }

  /** Under the real estimator the cut tail unit overruns its budget by at most one token a result. */
  lemma TailUnitTokens(body: seq<Item>, budget: nat)
    requires RoomyTail(body, budget, EstimateItem) && ModestResults(body[TrailingStart(body)..])
    ensures Cost(TailUnit(body, budget, EstimateItem), EstimateItem) <= budget + (|body| - TrailingStart(body))
  {
    hide CutAll, ModestResults, TrailingStart, TailUnit, ResultBytes, Cost, EstimateItem, RoomyTail, Owner, OwnerCost;
    var p := TrailingStart(body);
    var lead, share, n := RoomyTailUnit(body, budget, EstimateItem);
    CutAllBytes(body[p..], share);
    CostConcat(lead, CutAll(body[p..], share), EstimateItem);
    AddOneEach(n, share);
  }
}
