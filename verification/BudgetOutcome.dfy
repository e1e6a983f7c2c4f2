/** When `fit_conversation_to_budget` keeps its budget: each exit in turn, and one condition
    for every conversation. */
module BudgetOutcome {
  import opened Options
  import opened Conversation
  import opened Turns
  import opened Utf8
  import opened TextCut
  import opened BudgetFit
  import opened TokenEstimate
  import opened TruncationCost

  // ---- the exit that recovers trailing results with their owner ----

  /** The conversation is too long, and ends in results that do not fit with what owns them. */
  predicate Recovers(conv: seq<Item>, maxTokens: nat) {
    var body := Body(conv);
    var p := TrailingStart(body);
    && Cost(conv, EstimateItem) > maxTokens && p < |body|
    && (p > 0 ==> Cost(body[p - 1..], EstimateItem) > BudgetOf(conv, maxTokens))
  }

  /** Results from `start` on alone: skipping them ends where they end. */
  lemma {:induction false} OnlyResults(body: seq<Item>, start: nat)
    requires start <= |body| && forall k :: start <= k < |body| ==> body[k].ToolResult?
    ensures PastResults(body, start) == |body|
    decreases |body| - start
  {
    if start < |body| { OnlyResults(body, start + 1); }
  }

  /** Then the outcome is the head and the recovered unit. */
  lemma RecoveredIs(conv: seq<Item>, maxTokens: nat)
    requires Recovers(conv, maxTokens)
    ensures Fitted(conv, maxTokens, EstimateItem)
         == Head(conv) + TailUnit(Body(conv), BudgetOf(conv, maxTokens), EstimateItem)
  {
    hide EstimateItem, CutItem, Cost, FitStart, PastResults, TrailingStart, TailUnit, Head, Body;
    var body, budget := Body(conv), BudgetOf(conv, maxTokens);
    var p, start := TrailingStart(body), FitStart(body, budget, EstimateItem);
    if start < p {
      CostSuffixMonotonic(body, start, p - 1, EstimateItem);
    }
    OnlyResults(body, start);
  }

  /** The tokens of results once each is cut to `share` tokens. */
  function ResultsTokens(items: seq<Item>, share: nat): nat {
    if items == [] then 0 else KeptTokens(items[0], share) + ResultsTokens(items[1..], share)
  }

  lemma {:induction false} ResultsTokensExact(items: seq<Item>, share: nat)
    ensures Cost(CutAll(items, share), EstimateItem) == ResultsTokens(items, share)
  {
    hide EstimateItem, CutItem, KeptTokens;
    if items != [] {
      KeptTokensExact(items[0], share);
      ResultsTokensExact(items[1..], share);
      assert CutAll(items, share)[1..] == CutAll(items[1..], share);
    }
  }

  /** The tokens of the recovered unit: its owner in full, and each result cut to its share. */
  function UnitTokens(body: seq<Item>, budget: nat): nat
    requires TrailingStart(body) < |body|
  {
    var p := TrailingStart(body);
    var owner := OwnerCost(Owner(body, p), EstimateItem);
    owner + ResultsTokens(body[p..], PerResult(budget, owner, |body| - p))
  }

  lemma RecoveredCost(conv: seq<Item>, maxTokens: nat)
    requires Recovers(conv, maxTokens)
    ensures Cost(Fitted(conv, maxTokens, EstimateItem), EstimateItem)
         == Cost(Head(conv), EstimateItem) + UnitTokens(Body(conv), BudgetOf(conv, maxTokens))
  {
    hide EstimateItem, CutAll, Fitted, ResultsTokens, BudgetOf, Head, Body, TailUnit, TrailingStart, Owner, OwnerCost;
    hide PerResult, Cost;
    var body, budget := Body(conv), BudgetOf(conv, maxTokens);
    var p := TrailingStart(body);
    var owner := Owner(body, p);
    var share := PerResult(budget, OwnerCost(owner, EstimateItem), |body| - p);
    var lead := OwnerItems(owner);
    RecoveredIs(conv, maxTokens);
    TailUnitParts(body, budget, EstimateItem);
    OwnerCalls(body, p);
    LeadCost(owner, EstimateItem);
    ResultsTokensExact(body[p..], share);
    CostConcat(lead, CutAll(body[p..], share), EstimateItem);
    CostConcat(Head(conv), lead + CutAll(body[p..], share), EstimateItem);
  }

  /** Recovering the last unit keeps the budget exactly when the head, the owner with its calls
      in full and the results, each cut to its share, fit it. */
  lemma RecoveryKeepsBudgetIff(conv: seq<Item>, maxTokens: nat)
    requires Recovers(conv, maxTokens)
    ensures var head := Cost(Head(conv), EstimateItem);
            Cost(Fitted(conv, maxTokens, EstimateItem), EstimateItem) <= maxTokens
            <==> head <= maxTokens && head + UnitTokens(Body(conv), maxTokens - head) <= maxTokens
  {
    hide EstimateItem, Fitted, Cost, UnitTokens, Head, Body, TrailingStart;
    RecoveredCost(conv, maxTokens);
  }

  // ---- the other exits ----

  /** Over the budget, a conversation with a body that neither truncates nor recovers keeps a suffix. */
  lemma OtherwiseSuffix(conv: seq<Item>, maxTokens: nat)
    requires Cost(conv, EstimateItem) > maxTokens && Body(conv) != []
    requires !Truncates(conv, maxTokens) && !Recovers(conv, maxTokens)
    ensures PastResults(Body(conv), FitStart(Body(conv), BudgetOf(conv, maxTokens), EstimateItem)) < |Body(conv)|
  {
    hide EstimateItem, Cost, FitStart, PastResults, TrailingStart, Head, Body;
    var body, budget := Body(conv), BudgetOf(conv, maxTokens);
    var p, start := TrailingStart(body), FitStart(body, budget, EstimateItem);
    LastCost(body);
    var turn := if p == |body| then |body| - 1 else p - 1;
    assert turn < |body| && !body[turn].ToolResult? && Cost(body[turn..], EstimateItem) <= budget;
    assert start <= turn;
  }

  lemma SuffixKeepsBudgetIff(conv: seq<Item>, maxTokens: nat)
    requires Cost(conv, EstimateItem) > maxTokens
    requires PastResults(Body(conv), FitStart(Body(conv), BudgetOf(conv, maxTokens), EstimateItem)) < |Body(conv)|
    ensures Cost(Fitted(conv, maxTokens, EstimateItem), EstimateItem) <= maxTokens
       <==> Cost(Head(conv), EstimateItem) <= maxTokens
  {
    hide EstimateItem, Cost, FitStart, PastResults, Head, Body;
    var body, budget := Body(conv), BudgetOf(conv, maxTokens);
    var p := PastResults(body, FitStart(body, budget, EstimateItem));
    SuffixExitCost(conv, maxTokens, EstimateItem);
    CostConcat(Head(conv), body[p..], EstimateItem);
  }

  lemma BodilessCost(conv: seq<Item>, maxTokens: nat)
    requires Cost(conv, EstimateItem) > maxTokens && Body(conv) == []
    ensures Fitted(conv, maxTokens, EstimateItem) == conv && Cost(Head(conv), EstimateItem) > maxTokens
  {
    hide EstimateItem, Cost, CutItem;
    HeadAndBody(conv);
    assert Head(conv) + [] == conv == Head(conv);
  }

  // ---- every conversation ----

  /** What a caller can compute beforehand: the conversation fits; or its head does, and so does
      with it what is left of the last item, or of the last results and their owner, when these
      alone are too long. */
  predicate KeepsBudget(conv: seq<Item>, maxTokens: nat) {
    var head, body := Cost(Head(conv), EstimateItem), Body(conv);
    || Cost(conv, EstimateItem) <= maxTokens
    || (&& head <= maxTokens
        && (Truncates(conv, maxTokens) ==>
              (body[|body| - 1].User? || body[|body| - 1].Assistant?)
              && head + KeptTokens(body[|body| - 1], maxTokens - head) <= maxTokens)
        && (Recovers(conv, maxTokens) ==> head + UnitTokens(body, maxTokens - head) <= maxTokens))
  }

  lemma NotBoth(conv: seq<Item>, maxTokens: nat)
    ensures !(Truncates(conv, maxTokens) && Recovers(conv, maxTokens))
  {
    hide EstimateItem, Cost, Head, Body;
  }

  /** Every conversation and every budget: the outcome is within the budget exactly under that
      condition. */
  lemma KeepsBudgetIff(conv: seq<Item>, maxTokens: nat)
    ensures Cost(Fitted(conv, maxTokens, EstimateItem), EstimateItem) <= maxTokens <==> KeepsBudget(conv, maxTokens)
  {
    hide EstimateItem, Cost, UnitTokens, KeptTokens, BudgetOf, Head, Body, FitStart, PastResults, TailUnit;
    hide TrailingStart;
    NotBoth(conv, maxTokens);
    if Cost(conv, EstimateItem) > maxTokens {
      hide Fitted;
      if Body(conv) == [] {
        BodilessCost(conv, maxTokens);
      } else if Truncates(conv, maxTokens) {
        TruncationKeepsBudgetIff(conv, maxTokens);
      } else if Recovers(conv, maxTokens) {
        RecoveryKeepsBudgetIff(conv, maxTokens);
      } else {
        OtherwiseSuffix(conv, maxTokens);
        SuffixKeepsBudgetIff(conv, maxTokens);
      }
    }
  }

  // ---- a long call that is answered ----

  /** An Assistant that writes with long arguments, and the empty answer to its call. */
  function LongCall(args: string): seq<Item> {
    [Assistant("", [ToolCall("c", "write", args)]), ToolResult("c", "", [])]
  }

  lemma LongCallCost(args: string)
    ensures EstimateItem(LongCall(args)[0]) == EstimateText(args) && EstimateItem(LongCall(args)[1]) == 0
    ensures Cost(LongCall(args), EstimateItem) == EstimateText(args)
  {
    hide EstimateText;
    var call, answer := LongCall(args)[0], LongCall(args)[1];
    assert EstimateText("") == 0 by { EmptyText(); }
    var calls := call.toolCalls;
    assert calls[1..] == [] && EstimateCalls(calls[1..]) == 0;
    hide EstimateItem;
    assert LongCall(args)[1..] == [answer] && [answer][1..] == [];
    assert Cost([answer], EstimateItem) == 0;
  }

  lemma EmptyText()
    ensures EstimateText("") == 0 && ByteLen("") == 0
  {
  }

  /** However small the budget, it comes back as it was, at the cost of the arguments. */
  lemma LongCallNotShrunk(args: string, maxTokens: nat)
    requires EstimateText(args) > maxTokens
    ensures Recovers(LongCall(args), maxTokens)
    ensures Fitted(LongCall(args), maxTokens, EstimateItem) == LongCall(args)
    ensures Cost(Fitted(LongCall(args), maxTokens, EstimateItem), EstimateItem) == EstimateText(args) > maxTokens
  {
    var conv := LongCall(args);
    LongCallCost(args);
    EmptyText();
    hide EstimateText, ByteLen, EstimateItem, Cost, Fitted;
    assert Head(conv) == [] && Body(conv) == conv && conv[0..] == conv;
    assert TrailingStart(conv) == 1 && Owner(conv, 1) == Some(conv[0]);
    RecoveredIs(conv, maxTokens);
    var share := PerResult(BudgetOf(conv, maxTokens), OwnerCost(Owner(conv, 1), EstimateItem), 1);
    TailUnitParts(conv, BudgetOf(conv, maxTokens), EstimateItem);
    assert conv[1..] == [conv[1]];
    assert CutItem(conv[1], share) == conv[1];
    assert CutAll(conv[1..], share) == [conv[1]];
  }
}
