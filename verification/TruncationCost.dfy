/** The exits of `fit_conversation_to_budget` that truncate in place: what they cost under the
    repository's estimator, and when the budget is kept. */
module TruncationCost {
  import opened Options
  import opened Conversation
  import opened Turns
  import opened Utf8
  import opened TextCut
  import opened BudgetFit
  import opened TokenEstimate

  function BudgetOf(conv: seq<Item>, maxTokens: nat): nat {
    SaturatingSub(maxTokens, Cost(Head(conv), EstimateItem))
  }

  /** The conversation is too long, and ends in an item, no result, that alone is too long. */
  predicate Truncates(conv: seq<Item>, maxTokens: nat) {
    var body := Body(conv);
    && Cost(conv, EstimateItem) > maxTokens && body != []
    && !body[|body| - 1].ToolResult? && EstimateItem(body[|body| - 1]) > BudgetOf(conv, maxTokens)
  }

  /** Then the outcome is the head and that item, cut. */
  lemma TruncatedIs(conv: seq<Item>, maxTokens: nat)
    requires Truncates(conv, maxTokens)
    ensures var last := Body(conv)[|Body(conv)| - 1];
            Fitted(conv, maxTokens, EstimateItem) == Head(conv) + [CutItem(last, BudgetOf(conv, maxTokens))]
  {
    hide EstimateItem, CutItem, Cost, FitStart, PastResults, TrailingStart, Head, Body;
    var body, budget := Body(conv), BudgetOf(conv, maxTokens);
    var last := |body| - 1;
    var start := FitStart(body, budget, EstimateItem);
    if start < |body| {
      CostSuffixMonotonic(body, start, last, EstimateItem);
      LastCost(body);
    }
    assert start == |body|;
    assert TrailingStart(body) == |body|;
  }

  lemma LastCost(body: seq<Item>)
    requires body != []
    ensures Cost(body[|body| - 1..], EstimateItem) == EstimateItem(body[|body| - 1])
  {
    hide EstimateItem;
    var tail := body[|body| - 1..];
    assert tail[1..] == [] && Cost(tail[1..], EstimateItem) == 0;
  }

  // ---- the cost of a cut text, from the text ----

  lemma {:induction false} CountConcat(a: string, b: string)
    ensures Count(a + b)
         == Census(Count(a).ascii + Count(b).ascii, Count(a).cjk + Count(b).cjk, Count(a).other + Count(b).other)
  {
    if a == "" {
      assert a + b == b;
    } else {
      hide EncodeChar;
      assert (a + b)[1..] == a[1..] + b;
      CountConcat(a[1..], b);
    }
  }

  lemma {:induction false} CountAscii(s: string)
    requires forall k :: 0 <= k < |s| ==> s[k] as int < 0x80
    ensures Count(s) == Census(|s|, 0, 0)
  {
    if s != "" {
      CountAscii(s[1..]);
    }
  }

  lemma CountLiterals()
    ensures Count(MARKER_HEAD) == Census(|MARKER_HEAD|, 0, 0) && Count(MARKER_TAIL) == Census(|MARKER_TAIL|, 0, 0)
    ensures |MARKER_HEAD| + |MARKER_TAIL| == 56
  {
    hide Count;
    CountAscii(MARKER_HEAD);
    CountAscii(MARKER_TAIL);
  }

  lemma CountMarker(dropped: nat)
    ensures Count(Marker(dropped)) == Census(56 + |Decimal(dropped)|, 0, 0)
  {
    CountLiterals();
    CountAscii(Decimal(dropped));
    hide Count, Decimal, MARKER_HEAD, MARKER_TAIL;
    CountConcat(MARKER_HEAD, Decimal(dropped));
    CountConcat(MARKER_HEAD + Decimal(dropped), MARKER_TAIL);
  }

  /** The tokens of `s` once it is cut to `budget` tokens: those of the prefix that is kept,
      the marker's ASCII bytes added. */
  function CutTokens(s: string, budget: nat): nat {
    var maxBytes := SaturatingMul(budget, 4);
    if ByteLen(s) <= maxBytes then EstimateText(s)
    else
      var kept := s[..CharsWithin(s, SaturatingSub(maxBytes, MARKER_RESERVE))];
      var n := Count(kept);
      Tokens(n.(ascii := n.ascii + 56 + |Decimal(SaturatingSub(ByteLen(s), ByteLen(kept)))|))
  }

  lemma CutTokensExact(s: string, budget: nat)
    ensures EstimateText(CutTo(s, SaturatingMul(budget, 4))) == CutTokens(s, budget)
  {
    hide Count, Encode, Decimal, CharsWithin, Marker;
    var maxBytes := SaturatingMul(budget, 4);
    if ByteLen(s) > maxBytes {
      var kept := s[..CharsWithin(s, SaturatingSub(maxBytes, MARKER_RESERVE))];
      var dropped := SaturatingSub(ByteLen(s), ByteLen(kept));
      CountMarker(dropped);
      CountConcat(kept, Marker(dropped));
    }
  }

  function PartsTokens(parts: seq<ContentPart>, budget: nat): nat {
    if parts == [] then 0
    else
      (if parts[0].TextPart? then CutTokens(parts[0].text, budget) else IMAGE_TOKEN_ESTIMATE)
      + PartsTokens(parts[1..], budget)
  }

  /** The tokens of `item` once it is cut to `budget` tokens: each text on its own, calls and
      images in full. */
  function KeptTokens(item: Item, budget: nat): nat {
    match item
    case User(parts, _) => PartsTokens(parts, budget)
    case Assistant(content, calls) => CutTokens(content, budget) + EstimateCalls(calls)
    case ToolResult(_, content, _) => CutTokens(content, budget)
    case _ => EstimateItem(item)
  }

  lemma {:induction false} PartsTokensExact(parts: seq<ContentPart>, budget: nat)
    ensures EstimateParts(CutParts(parts, SaturatingMul(budget, 4))) == PartsTokens(parts, budget)
  {
    if parts != [] {
      hide CutTo, CutTokens, EstimateText, CutParts;
      var cut := CutParts(parts, SaturatingMul(budget, 4));
      CutPartsCons(parts, SaturatingMul(budget, 4));
      PartsTokensExact(parts[1..], budget);
      if parts[0].TextPart? { CutTokensExact(parts[0].text, budget); }
    }
  }

  lemma CutPartsCons(parts: seq<ContentPart>, maxBytes: nat)
    requires parts != []
    ensures var cut := CutParts(parts, maxBytes);
            |cut| == |parts| && cut[0] == CutPart(parts[0], maxBytes) && cut[1..] == CutParts(parts[1..], maxBytes)
  {
    hide CutPart;
  }

  lemma KeptTokensExact(item: Item, budget: nat)
    ensures EstimateItem(CutItem(item, budget)) == KeptTokens(item, budget)
  {
    hide CutTo, CutTokens, EstimateText, CutParts, EstimateParts, PartsTokens, EstimateCalls;
    match item
    case User(parts, _) => PartsTokensExact(parts, budget);
    case Assistant(content, _) => CutTokensExact(content, budget);
    case ToolResult(_, content, _) => CutTokensExact(content, budget);
    case _ =>
  }

  // ---- when the budget is kept ----

  lemma TruncatedCost(conv: seq<Item>, maxTokens: nat)
    requires Truncates(conv, maxTokens)
    ensures Cost(Fitted(conv, maxTokens, EstimateItem), EstimateItem)
         == Cost(Head(conv), EstimateItem) + KeptTokens(Body(conv)[|Body(conv)| - 1], BudgetOf(conv, maxTokens))
  {
    hide EstimateItem, CutItem, Fitted, KeptTokens, BudgetOf, Head, Body;
    var last, budget := Body(conv)[|Body(conv)| - 1], BudgetOf(conv, maxTokens);
    TruncatedIs(conv, maxTokens);
    KeptTokensExact(last, budget);
    CostConcat(Head(conv), [CutItem(last, budget)], EstimateItem);
    LastCost([CutItem(last, budget)]);
    assert [CutItem(last, budget)][0..] == [CutItem(last, budget)];
  }

  /** Truncating one item keeps the budget exactly when the head fits it, the item is of a kind
      that is cut at all, and its texts, each cut to the whole budget, with its calls and images
      in full, still fit what the head leaves. */
  lemma TruncationKeepsBudgetIff(conv: seq<Item>, maxTokens: nat)
    requires Truncates(conv, maxTokens)
    ensures var last, head := Body(conv)[|Body(conv)| - 1], Cost(Head(conv), EstimateItem);
            Cost(Fitted(conv, maxTokens, EstimateItem), EstimateItem) <= maxTokens
            <==> && head <= maxTokens && (last.User? || last.Assistant?)
                 && head + KeptTokens(last, maxTokens - head) <= maxTokens
  {
    hide EstimateItem, Fitted, Cost, KeptTokens, Head, Body;
    TruncatedCost(conv, maxTokens);
    Uncut(Body(conv)[|Body(conv)| - 1], BudgetOf(conv, maxTokens));
  }

  lemma Uncut(item: Item, budget: nat)
    ensures !item.User? && !item.Assistant? && !item.ToolResult? ==>
              CutItem(item, budget) == item && KeptTokens(item, budget) == EstimateItem(item)
  {
    hide EstimateItem;
  }

  // ---- how far it can be exceeded ----

  /** A cut text holds at most the larger of the budget and the reserve, and four tokens more. */
  lemma CutTokensBound(s: string, budget: nat)
    requires ByteLen(s) < Pow10(20)
    ensures CutTokens(s, budget) <= Max(budget, 16) + 4
    ensures budget >= 16 && ByteLen(s) < 100_000_000 ==> CutTokens(s, budget) <= budget + 1
  {
    var maxBytes := SaturatingMul(budget, 4);
    hide Count, Encode, Decimal, CutText, CutTokens, EstimateText, Pow10;
    CutTokensExact(s, budget);
    EstimateNearBytes(CutTo(s, maxBytes));
    CutTextShape(s, maxBytes);
    if ByteLen(s) > maxBytes {
      CutTextBound(s, maxBytes);
      DecimalAtMost(ByteLen(s), 20);
    }
  }

  function TextCount(parts: seq<ContentPart>): nat {
    if parts == [] then 0 else (if parts[0].TextPart? then 1 else 0) + TextCount(parts[1..])
  }

  function ImageCount(parts: seq<ContentPart>): nat {
    if parts == [] then 0 else (if parts[0].ImagePart? then 1 else 0) + ImageCount(parts[1..])
  }

  ghost predicate TextsBelow(parts: seq<ContentPart>, limit: nat) {
    forall k :: 0 <= k < |parts| && parts[k].TextPart? ==> ByteLen(parts[k].text) < limit
  }

  lemma {:induction false} PartsBound(parts: seq<ContentPart>, budget: nat, limit: nat, each: nat)
    requires TextsBelow(parts, limit)
    requires forall s :: ByteLen(s) < limit ==> CutTokens(s, budget) <= each
    ensures PartsTokens(parts, budget) <= TextCount(parts) * each + IMAGE_TOKEN_ESTIMATE * ImageCount(parts)
  {
    if parts != [] {
      hide CutTokens, ByteLen;
      var rest := parts[1..];
      assert forall k :: 0 <= k < |rest| ==> rest[k] == parts[k + 1];
      PartsBound(rest, budget, limit, each);
      OneMore(TextCount(rest) + 1, each);
    }
  }

  /** A user item with k text parts and j images costs at most k * (max(budget, 16) + 4) + 765 * j. */
  lemma UserBound(parts: seq<ContentPart>, reason: Option<SyntheticReason>, budget: nat)
    requires TextsBelow(parts, Pow10(20))
    ensures KeptTokens(User(parts, reason), budget)
         <= TextCount(parts) * (Max(budget, 16) + 4) + 765 * ImageCount(parts)
  {
    hide CutTokens, ByteLen, TextsBelow, PartsTokens, TextCount, ImageCount, Pow10;
    forall s | ByteLen(s) < Pow10(20) ensures CutTokens(s, budget) <= Max(budget, 16) + 4 {
      CutTokensBound(s, budget);
    }
    PartsBound(parts, budget, Pow10(20), Max(budget, 16) + 4);
  }

  /** With texts below 10^8 bytes and a budget of 16 tokens or more, at most k * (budget + 1) + 765 * j. */
  lemma ModestUserBound(parts: seq<ContentPart>, reason: Option<SyntheticReason>, budget: nat)
    requires TextsBelow(parts, 100_000_000) && budget >= 16
    ensures KeptTokens(User(parts, reason), budget) <= TextCount(parts) * (budget + 1) + 765 * ImageCount(parts)
  {
    assert 100_000_000 <= Pow10(20) by { Pow10Monotonic(8, 20); assert Pow10(8) == 100_000_000; }
    hide CutTokens, ByteLen, TextsBelow, PartsTokens, TextCount, ImageCount, Pow10;
    forall s | ByteLen(s) < 100_000_000 ensures CutTokens(s, budget) <= budget + 1 {
      CutTokensBound(s, budget);
    }
    PartsBound(parts, budget, 100_000_000, budget + 1);
  }

  /** An Assistant costs its cut content and its calls in full. */
  lemma AssistantBound(content: string, calls: seq<ToolCall>, budget: nat)
    requires ByteLen(content) < Pow10(20)
    ensures KeptTokens(Assistant(content, calls), budget) <= Max(budget, 16) + 4 + EstimateCalls(calls)
    ensures budget >= 16 && ByteLen(content) < 100_000_000 ==>
              KeptTokens(Assistant(content, calls), budget) <= budget + 1 + EstimateCalls(calls)
  {
    hide CutTokens, ByteLen, EstimateCalls, Pow10;
    CutTokensBound(content, budget);
  }

  // ---- a conversation that is returned as it was, at twice the budget ----

  function Letters(n: nat): (s: string)
    ensures |s| == n && forall k :: 0 <= k < n ==> s[k] == 'a'
  {
    seq(n, _ => 'a')
  }

  /** One user item with two texts of 400 bytes. */
  function TwoTexts(): seq<Item> {
    [User([TextPart(Letters(400)), TextPart(Letters(400))], None)]
  }

  lemma LettersCost(n: nat)
    ensures ByteLen(Letters(n)) == n && EstimateText(Letters(n)) == n / 4
  {
    hide Count, Encode, Letters;
    CountAscii(Letters(n));
    AsciiLength(Letters(n));
  }

  lemma TwoTextsCost()
    ensures EstimateItem(TwoTexts()[0]) == 200 && CutItem(TwoTexts()[0], 100) == TwoTexts()[0]
  {
    LettersCost(400);
    hide EstimateText, ByteLen, Letters;
    var parts := TwoTexts()[0].parts;
    var part := parts[1];
    assert parts[1..] == [part] && [part][1..] == [];
    assert EstimateParts([part]) == 100;
    assert CutTo(part.text, 400) == part.text;
    assert CutParts(parts, 400) == parts;
  }

  lemma TwoTextsNotShrunk()
    ensures Truncates(TwoTexts(), 100)
    ensures Fitted(TwoTexts(), 100, EstimateItem) == TwoTexts()
    ensures Cost(Fitted(TwoTexts(), 100, EstimateItem), EstimateItem) == 200
  {
    TwoTextsCost();
    hide EstimateItem, CutItem, Letters, Fitted;
    var conv := TwoTexts();
    LastCost(conv);
    assert conv[0..] == conv && Head(conv) == [] && Body(conv) == conv;
    assert Cost([], EstimateItem) == 0;
    TruncatedIs(conv, 100);
  }

  // ---- the recovered tail unit, whatever its results ----

  ghost predicate AddressableResults(items: seq<Item>) {
    forall k :: 0 <= k < |items| ==> items[k].ToolResult? && ByteLen(items[k].content) < Pow10(20)
  }

  lemma ResultBound(item: Item, share: nat)
    requires item.ToolResult? && ByteLen(item.content) < Pow10(20)
    ensures CutItem(item, share).ToolResult?
    ensures ByteLen(CutItem(item, share).content) <= Max(4 * share, 64) + 12
    ensures EstimateItem(CutItem(item, share)) <= Max(share, 16) + 4
  {
    var maxBytes := SaturatingMul(share, 4);
    hide Count, Encode, Decimal, CutText, CutTokens, EstimateText, Pow10;
    CutTokensExact(item.content, share);
    CutTokensBound(item.content, share);
    CutTextShape(item.content, maxBytes);
    if ByteLen(item.content) > maxBytes {
      CutTextBound(item.content, maxBytes);
      DecimalAtMost(ByteLen(item.content), 20);
    }
  }

  lemma {:induction false} ResultsBound(items: seq<Item>, share: nat)
    requires AddressableResults(items)
    ensures ResultBytes(CutAll(items, share)) <= |items| * (Max(4 * share, 64) + 12)
    ensures Cost(CutAll(items, share), EstimateItem) <= |items| * (Max(share, 16) + 4)
  {
    hide CutItem, EstimateItem, Encode, Pow10;
    if items != [] {
      ResultBound(items[0], share);
      assert AddressableResults(items[1..]);
      ResultsBound(items[1..], share);
      assert CutAll(items, share)[1..] == CutAll(items[1..], share);
      OneMore(|items|, Max(4 * share, 64) + 12);
      OneMore(|items|, Max(share, 16) + 4);
    }
  }

  /** For every budget, owner and cost function: k trailing results hold at most
      k * (max(4 * share, 64) + 12) bytes once they are cut. */
  lemma TailBytesBound(body: seq<Item>, budget: nat, cost: Item -> nat)
    requires var p := TrailingStart(body); p < |body| && AddressableResults(body[p..])
    ensures var p := TrailingStart(body);
            var k := |body| - p;
            var share := PerResult(budget, OwnerCost(Owner(body, p), cost), k);
            ResultBytes(TailUnit(body, budget, cost)) <= k * (Max(4 * share, 64) + 12)
  {
    hide *;
    var p := TrailingStart(body);
    var owner := Owner(body, p);
    var share := PerResult(budget, OwnerCost(owner, cost), |body| - p);
    var lead := OwnerItems(owner);
    TailUnitParts(body, budget, cost);
    UnitParts(owner, body[p..], share);
    OwnerCalls(body, p);
    LeadCost(owner, cost);
    ResultsBound(body[p..], share);
    ResultBytesConcat(lead, CutAll(body[p..], share));
  }

  /** And the unit costs at most its owner and k * (max(share, 16) + 4). */
  lemma TailUnitBound(body: seq<Item>, budget: nat)
    requires var p := TrailingStart(body); p < |body| && AddressableResults(body[p..])
    ensures var p := TrailingStart(body);
            var k, owner := |body| - p, OwnerCost(Owner(body, p), EstimateItem);
            var share := PerResult(budget, owner, k);
            Cost(TailUnit(body, budget, EstimateItem), EstimateItem) <= owner + k * (Max(share, 16) + 4)
  {
    hide *;
    var p := TrailingStart(body);
    var owner := Owner(body, p);
    var share := PerResult(budget, OwnerCost(owner, EstimateItem), |body| - p);
    var lead := OwnerItems(owner);
    TailUnitParts(body, budget, EstimateItem);
    UnitParts(owner, body[p..], share);
    OwnerCalls(body, p);
    LeadCost(owner, EstimateItem);
    ResultsBound(body[p..], share);
    CostConcat(lead, CutAll(body[p..], share), EstimateItem);
  }

  lemma OwnerCalls(body: seq<Item>, p: nat)
    requires p <= |body|
    ensures Owner(body, p).Some? ==> !Owner(body, p).value.ToolResult?
  {
  }

  lemma LeadCost(owner: Option<Item>, cost: Item -> nat)
    requires owner.Some? ==> !owner.value.ToolResult?
    ensures var lead := OwnerItems(owner);
            Cost(lead, cost) == OwnerCost(owner, cost) && ResultBytes(lead) == 0
  {
    if owner.Some? { assert [owner.value][1..] == []; }
  }
}
