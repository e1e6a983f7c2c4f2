/** `fit_conversation_to_budget`: keep the System head and the longest recent
    suffix that fits, never starting inside a run of results; when nothing of
    the kind fits, keep the most recent turn with its text cut. */
module BudgetFit {
  import opened Options
  import opened Conversation
  import opened Turns
  import opened Pairing
  import opened TextCut

  function Cost(items: seq<Item>, cost: Item -> nat): nat {
    if items == [] then 0 else cost(items[0]) + Cost(items[1..], cost)
  }

  lemma {:induction false} CostConcat(a: seq<Item>, b: seq<Item>, cost: Item -> nat)
    ensures Cost(a + b, cost) == Cost(a, cost) + Cost(b, cost)
  {
    if a == [] {
      assert a + b == b;
    } else {
      assert (a + b)[1..] == a[1..] + b;
      CostConcat(a[1..], b, cost);
    }
  }

  function Head(conv: seq<Item>): seq<Item> {
    if conv != [] && conv[0].System? then [conv[0]] else []
  }

  function Body(conv: seq<Item>): seq<Item> {
    conv[|Head(conv)|..]
  }

  /** Where the longest suffix of `body` that costs at most `budget` starts. */
  function FitStart(body: seq<Item>, budget: nat, cost: Item -> nat): (start: nat)
    ensures start <= |body| && Cost(body[start..], cost) <= budget
    ensures forall j :: 0 <= j < start ==> Cost(body[j..], cost) > budget
  {
    if Cost(body, cost) <= budget then
      assert body[0..] == body;
      0
    else
      var s := FitStart(body[1..], budget, cost);
      assert forall j :: 1 <= j <= |body| ==> body[1..][j - 1..] == body[j..];
      assert body[0..] == body;
      s + 1
  }

  /** The first position from `start` on that is not a result. */
  function PastResults(body: seq<Item>, start: nat): (p: nat)
    requires start <= |body|
    ensures start <= p <= |body| && (p < |body| ==> !body[p].ToolResult?)
    ensures forall k :: start <= k < p ==> body[k].ToolResult?
    decreases |body| - start
  {
    if start < |body| && body[start].ToolResult? then PastResults(body, start + 1) else start
  }

  /** Where the results that `body` ends in start. */
  function TrailingStart(body: seq<Item>): (p: nat)
    ensures p <= |body| && (p > 0 ==> !body[p - 1].ToolResult?)
    ensures forall k :: p <= k < |body| ==> body[k].ToolResult?
  {
    if body != [] && body[|body| - 1].ToolResult? then TrailingStart(body[..|body| - 1]) else |body|
  }

  function Owner(body: seq<Item>, p: nat): Option<Item>
    requires p <= |body|
  {
    if p > 0 && Caller(body[p - 1]) then Some(body[p - 1]) else None
  }

  function OwnerCost(owner: Option<Item>, cost: Item -> nat): nat {
    match owner
    case Some(o) => cost(o)
    case None => 0
  }

  /** The token allowance of each of `n` trailing results. */
  function PerResult(budget: nat, ownerCost: nat, n: nat): nat
    requires n > 0
  {
    var share := SaturatingSub(budget, ownerCost) / n;
    if share >= 1 then share else 1
  }

  function CutAll(items: seq<Item>, maxTokens: nat): seq<Item> {
    seq(|items|, i requires 0 <= i < |items| => CutItem(items[i], maxTokens))
  }

  function OwnerItems(owner: Option<Item>): seq<Item> {
    if owner.Some? then [owner.value] else []
  }

  function CutUnit(owner: Option<Item>, results: seq<Item>, share: nat): seq<Item> {
    OwnerItems(owner) + CutAll(results, share)
  }

  /** The most recent turn of `body`, its text cut to the budget. */
  function TailUnit(body: seq<Item>, budget: nat, cost: Item -> nat): seq<Item> {
    var p := TrailingStart(body);
    if p == |body| then
      if body == [] then [] else [CutItem(body[p - 1], budget)]
    else
      var owner := Owner(body, p);
      CutUnit(owner, body[p..], PerResult(budget, OwnerCost(owner, cost), |body| - p))
  }

  function Fitted(conv: seq<Item>, maxTokens: nat, cost: Item -> nat): seq<Item> {
    if Cost(conv, cost) <= maxTokens then conv
    else
      var body := Body(conv);
      var budget := SaturatingSub(maxTokens, Cost(Head(conv), cost));
      var start := PastResults(body, FitStart(body, budget, cost));
      Head(conv) + (if start < |body| then body[start..] else TailUnit(body, budget, cost))
  }

  // ---- the methods ----

  method TotalCost(items: seq<Item>, cost: Item -> nat) returns (total: nat)
    ensures total == Cost(items, cost)
  {
    total := 0;
    assert items[..0] == [];
    for i := 0 to |items|
      invariant total == Cost(items[..i], cost)
    {
      CostSnoc(items, i, cost);
      total := total + cost(items[i]);
    }
    assert items[..|items|] == items;
  }

  lemma CostSnoc(items: seq<Item>, i: nat, cost: Item -> nat)
    requires i < |items|
    ensures Cost(items[..i + 1], cost) == Cost(items[..i], cost) + cost(items[i])
  {
    assert items[..i + 1] == items[..i] + [items[i]];
    CostConcat(items[..i], [items[i]], cost);
    assert [items[i]][1..] == [];
  }

  lemma CostSuffix(body: seq<Item>, i: nat, cost: Item -> nat)
    requires i < |body|
    ensures Cost(body[i..], cost) == cost(body[i]) + Cost(body[i + 1..], cost)
  {
    assert body[i..][1..] == body[i + 1..];
  }

  lemma {:induction false} CostSuffixMonotonic(body: seq<Item>, i: nat, j: nat, cost: Item -> nat)
    requires i <= j <= |body|
    ensures Cost(body[j..], cost) <= Cost(body[i..], cost)
    decreases j - i
  {
    if i < j {
      CostSuffix(body, i, cost);
      CostSuffixMonotonic(body, i + 1, j, cost);
    }
  }

  /** Scanning from the back, the first item that overruns the budget marks the longest fit. */
  lemma FitStartFound(body: seq<Item>, start: nat, budget: nat, cost: Item -> nat)
    requires start <= |body| && Cost(body[start..], cost) <= budget
    requires start > 0 ==> Cost(body[start - 1..], cost) > budget
    ensures start == FitStart(body, budget, cost)
  {
    var s := FitStart(body, budget, cost);
    if s < start {
      CostSuffixMonotonic(body, s, start - 1, cost);
    }
  }

  method SuffixStart(body: seq<Item>, budget: nat, cost: Item -> nat) returns (start: nat)
    ensures start == FitStart(body, budget, cost)
  {
    var remaining := budget;
    start := |body|;
    assert body[|body|..] == [];
    while start > 0
      invariant start <= |body|
      invariant Cost(body[start..], cost) + remaining == budget
    {
      CostSuffix(body, start - 1, cost);
      var c := cost(body[start - 1]);
      if c > remaining {
        break;
      }
      remaining := remaining - c;
      start := start - 1;
    }
    FitStartFound(body, start, budget, cost);
  }

  method PopResults(items: seq<Item>) returns (body: seq<Item>, results: seq<Item>)
    ensures body == items[..TrailingStart(items)] && results == items[TrailingStart(items)..]
  {
    body, results := items, [];
    while body != [] && body[|body| - 1].ToolResult?
      invariant items == body + results
      invariant TrailingStart(body) == TrailingStart(items)
    {
      results := [body[|body| - 1]] + results;
      body := body[..|body| - 1];
    }
  }

  method CutEach(items: seq<Item>, maxTokens: nat) returns (cut: seq<Item>)
    ensures cut == CutAll(items, maxTokens)
  {
    cut := [];
    for i := 0 to |items|
      invariant cut == CutAll(items[..i], maxTokens)
    {
      hide CutItem;
      var c := TruncateItemToTokens(items[i], maxTokens);
      assert CutAll(items[..i + 1], maxTokens) == CutAll(items[..i], maxTokens) + [c];
      cut := cut + [c];
    }
    assert items[..|items|] == items;
  }

  method RecoverTruncatedTailUnit(items: seq<Item>, budget: nat, cost: Item -> nat) returns (unit: seq<Item>)
    ensures unit == TailUnit(items, budget, cost)
  {
    hide CutItem, CutAll, TrailingStart;
    var body, results := PopResults(items);
    if results == [] {
      if body == [] {
        return [];
      }
      var cut := TruncateItemToTokens(body[|body| - 1], budget);
      return [cut];
    }
    unit := [];
    var ownerCost := 0;
    if body != [] && Caller(body[|body| - 1]) {
      unit := [body[|body| - 1]];
      ownerCost := cost(body[|body| - 1]);
    }
    var cut := CutEach(results, PerResult(budget, ownerCost, |results|));
    unit := unit + cut;
  }

  method FitConversationToBudget(conversation: seq<Item>, maxTokens: nat, cost: Item -> nat) returns (out: seq<Item>)
    ensures out == Fitted(conversation, maxTokens, cost)
  {
    var total := TotalCost(conversation, cost);
    if total <= maxTokens {
      return conversation;
    }
    var head: seq<Item>, body := [], conversation;
    if body != [] && body[0].System? {
      head, body := [body[0]], body[1..];
    }
    assert head == Head(conversation) && body == Body(conversation);
    var headCost := TotalCost(head, cost);
    var budget := SaturatingSub(maxTokens, headCost);
    var start := SuffixStart(body, budget, cost);
    ghost var start0 := start;
    while start < |body| && body[start].ToolResult?
      invariant start <= |body| && PastResults(body, start) == PastResults(body, start0)
    {
      start := start + 1;
    }
    if start < |body| {
      out := head + body[start..];
    } else {
      var tail := RecoverTruncatedTailUnit(body, budget, cost);
      out := head + tail;
    }
  }

  // ---- what the fitted conversation is ----

  predicate SameShapes(a: seq<Item>, b: seq<Item>) {
    |a| == |b| && forall k :: 0 <= k < |a| ==> SameShape(a[k], b[k])
  }

  /** Where the tail unit starts: at the last item, or at the owner of the trailing results. */
  function UnitStart(body: seq<Item>): (start: nat)
    ensures start <= |body| && (body != [] ==> start < |body|)
  {
    var p := TrailingStart(body);
    if p == |body| then (if body == [] then 0 else p - 1)
    else if Owner(body, p).Some? then p - 1
    else p
  }

  /** Where in the body the fitted conversation starts. */
  function KeptStart(conv: seq<Item>, maxTokens: nat, cost: Item -> nat): (start: nat)
    ensures start <= |Body(conv)| && (Body(conv) != [] ==> start < |Body(conv)|)
  {
    var body := Body(conv);
    if Cost(conv, cost) <= maxTokens then 0
    else
      var start := PastResults(body, FitStart(body, SaturatingSub(maxTokens, Cost(Head(conv), cost)), cost));
      if start < |body| then start else UnitStart(body)
  }

  /** Every outcome is the head and a suffix of the body, up to cut text: the suffix is
      never empty when the body is not, and in a strictly paired conversation it
      starts at a turn. */
  lemma FittedIsSuffix(conv: seq<Item>, maxTokens: nat, cost: Item -> nat)
    ensures SameShapes(Fitted(conv, maxTokens, cost), Head(conv) + Body(conv)[KeptStart(conv, maxTokens, cost)..])
    ensures StrictlyPaired(conv) && Body(conv) != [] ==>
              !Body(conv)[KeptStart(conv, maxTokens, cost)].ToolResult?
  {
    hide Cost, FitStart, TailUnit, SameShape, InOwnRun, PastResults, UnitStart, Head, Body, SaturatingSub;
    var head, body := Head(conv), Body(conv);
    HeadAndBody(conv);
    var start := KeptStart(conv, maxTokens, cost);
    ShapesReflexive(head + body[start..]);
    if StrictlyPaired(conv) && body != [] {
      FirstIsNoResult(conv);
      UnitStartsAtTurn(conv);
    }
    if Cost(conv, cost) <= maxTokens {
      assert body[0..] == body;
    } else {
      var budget := SaturatingSub(maxTokens, Cost(head, cost));
      if PastResults(body, FitStart(body, budget, cost)) == |body| {
        TailUnitIsSuffix(body, budget, cost);
        ShapesReflexive(head);
        ShapesConcat(head, TailUnit(body, budget, cost), head, body[start..]);
      }
    }
  }

  lemma ShapesReflexive(s: seq<Item>)
    ensures SameShapes(s, s)
  {
  }

  lemma CutKeepsShape(item: Item, maxTokens: nat)
    ensures SameShape(CutItem(item, maxTokens), item)
  {
  }

  lemma CutAllKeepsShapes(items: seq<Item>, maxTokens: nat)
    ensures SameShapes(CutAll(items, maxTokens), items)
  {
    hide CutItem, SameShape;
    forall k | 0 <= k < |items| ensures SameShape(CutItem(items[k], maxTokens), items[k]) {
      CutKeepsShape(items[k], maxTokens);
    }
  }

  lemma ShapesConcat(a: seq<Item>, b: seq<Item>, c: seq<Item>, d: seq<Item>)
    requires SameShapes(a, c) && SameShapes(b, d)
    ensures SameShapes(a + b, c + d)
  {
    hide SameShape;
  }

  lemma FirstIsNoResult(conv: seq<Item>)
    requires StrictlyPaired(conv) && Body(conv) != []
    ensures !Body(conv)[0].ToolResult?
  {
    var i := |Head(conv)|;
    assert Body(conv)[0] == conv[i];
    assert InOwnRun(None, conv, i);
  }

  lemma TailUnitParts(body: seq<Item>, budget: nat, cost: Item -> nat)
    requires TrailingStart(body) < |body|
    ensures var p := TrailingStart(body); var owner := Owner(body, p);
            TailUnit(body, budget, cost)
            == CutUnit(owner, body[p..], PerResult(budget, OwnerCost(owner, cost), |body| - p))
  {
    hide CutItem, CutUnit, PerResult, TrailingStart, Owner, OwnerCost;
  }

  lemma UnitParts(owner: Option<Item>, results: seq<Item>, share: nat)
    ensures CutUnit(owner, results, share) == OwnerItems(owner) + CutAll(results, share)
  {
    hide CutAll;
  }

  lemma OwnerStands(body: seq<Item>)
    ensures var p, start := TrailingStart(body), UnitStart(body);
            p < |body| ==> start <= p && OwnerItems(Owner(body, p)) == body[start..p]
  {
    hide TrailingStart;
  }

  /** The tail unit is the suffix from `UnitStart` on, up to cut text. */
  lemma TailUnitIsSuffix(body: seq<Item>, budget: nat, cost: Item -> nat)
    ensures SameShapes(TailUnit(body, budget, cost), body[UnitStart(body)..])
  {
    hide CutItem, CutAll, SameShape, TrailingStart;
    var p := TrailingStart(body);
    if p == |body| {
      if body != [] {
        CutKeepsShape(body[p - 1], budget);
      }
    } else {
      hide TailUnit, UnitStart, SameShapes, Owner, OwnerItems, CutUnit, PerResult;
      var owner, start := Owner(body, p), UnitStart(body);
      var per := PerResult(budget, OwnerCost(owner, cost), |body| - p);
      TailUnitParts(body, budget, cost);
      UnitParts(owner, body[p..], per);
      OwnerStands(body);
      CutAllKeepsShapes(body[p..], per);
      ShapesReflexive(body[start..p]);
      ShapesConcat(body[start..p], CutAll(body[p..], per), body[start..p], body[p..]);
      assert body[start..] == body[start..p] + body[p..];
    }
  }

  lemma UnitStartsAtTurn(conv: seq<Item>)
    requires StrictlyPaired(conv) && Body(conv) != []
    ensures !Body(conv)[UnitStart(Body(conv))].ToolResult?
  {
    hide TrailingStart, StrictlyPaired;
    var body := Body(conv);
    if TrailingStart(body) < |body| {
      TrailingHasOwner(conv, TrailingStart(body));
    }
  }

  lemma HeadAndBody(conv: seq<Item>)
    ensures conv == Head(conv) + Body(conv)
  {
  }

  lemma TrailingHasOwner(conv: seq<Item>, p: nat)
    requires StrictlyPaired(conv) && p == TrailingStart(Body(conv)) < |Body(conv)|
    ensures Owner(Body(conv), p).Some?
  {
    hide TrailingStart, Nearest;
    var h, body := |Head(conv)|, Body(conv);
    assert body[p] == conv[h + p] && conv[h + p].ToolResult?;
    assert InOwnRun(None, conv, h + p);
    NearestStep(None, conv, h + p);
    assert p > 0 ==> body[p - 1] == conv[h + p - 1];
  }

  lemma NearestStep(lead: Option<Item>, s: seq<Item>, i: nat)
    requires i <= |s|
    ensures i == 0 ==> Nearest(lead, s, i) == lead
    ensures i > 0 && !s[i - 1].ToolResult? ==> Nearest(lead, s, i) == Some(s[i - 1])
  {
  }

  // ---- pairing survives ----

  /** Two conversations with the same tail from a turn on are paired alike there. */
  lemma SameTailPaired(s: seq<Item>, n: nat, u: seq<Item>, m: nat, d: nat)
    requires n + d < |s| && m + d < |u| && s[n..] == u[m..] && !s[n].ToolResult?
    ensures PairedAt(None, s, n + d) <==> PairedAt(None, u, m + d)
    ensures InOwnRun(None, s, n + d) <==> InOwnRun(None, u, m + d)
  {
    hide Nearest, AnswersEachOnce, RunLength, DeclaredBy;
    assert s[n] == s[n..][0] && u[m] == u[m..][0];
    assert s[n + 1..] == s[n..][1..] && u[m + 1..] == u[m..][1..];
    assert s[n + d] == s[n..][d] && u[m + d] == u[m..][d];
    assert s[n + d + 1..] == s[n..][d + 1..] && u[m + d + 1..] == u[m..][d + 1..];
    if d > 0 {
      NearestShift(None, s, n, n + d);
      NearestShift(None, u, m, m + d);
    }
  }

  lemma {:induction false} ShapesNearest(a: seq<Item>, b: seq<Item>, i: nat)
    requires SameShapes(a, b) && i <= |a|
    ensures Nearest(None, a, i).Some? <==> Nearest(None, b, i).Some?
    ensures Nearest(None, a, i).Some? ==> SameShape(Nearest(None, a, i).value, Nearest(None, b, i).value)
  {
    if i > 0 {
      assert SameShape(a[i - 1], b[i - 1]);
      ShapesNearest(a, b, i - 1);
    }
  }

  lemma {:induction false} ShapesRun(a: seq<Item>, b: seq<Item>)
    requires SameShapes(a, b)
    ensures RunLength(a) == RunLength(b)
  {
    if a != [] {
      assert SameShape(a[0], b[0]);
      ShapesTail(a, b, 1);
      ShapesRun(a[1..], b[1..]);
    }
  }

  lemma ShapesTail(a: seq<Item>, b: seq<Item>, i: nat)
    requires SameShapes(a, b) && i <= |a|
    ensures SameShapes(a[i..], b[i..]) && SameShapes(a[..i], b[..i])
  {
    hide SameShape;
  }

  lemma {:induction false} ShapesAnswerCount(a: seq<Item>, b: seq<Item>, id: string)
    requires SameShapes(a, b)
    ensures AnswerCount(a, id) == AnswerCount(b, id)
  {
    if a != [] {
      assert SameShape(a[0], b[0]);
      ShapesTail(a, b, 1);
      ShapesAnswerCount(a[1..], b[1..], id);
    }
  }

  /** Cutting text does not affect pairing. */
  lemma ShapesPaired(a: seq<Item>, b: seq<Item>, i: nat)
    requires SameShapes(a, b) && i < |a|
    ensures PairedAt(None, a, i) <==> PairedAt(None, b, i)
    ensures InOwnRun(None, a, i) <==> InOwnRun(None, b, i)
  {
    hide Nearest, RunLength, AnswerCount, SameShapes;
    SameLengths(a, b);
    ShapeAt(a, b, i);
    ShapesNearest(a, b, i);
    ShapesTail(a, b, i + 1);
    ShapesRun(a[i + 1..], b[i + 1..]);
    ShapesTail(a[i + 1..], b[i + 1..], RunLength(a[i + 1..]));
    forall id ensures AnswerCount(RunAfter(a, i), id) == AnswerCount(RunAfter(b, i), id) {
      ShapesAnswerCount(RunAfter(a, i), RunAfter(b, i), id);
    }
  }

  lemma ShapeAt(a: seq<Item>, b: seq<Item>, i: nat)
    requires SameShapes(a, b) && i < |a|
    ensures SameShape(a[i], b[i])
  {
  }

  /** Fitting keeps strict pairing, and keeps a well-paired conversation well paired:
      each run is kept whole or dropped whole. */
  lemma FittedKeepsPairing(conv: seq<Item>, maxTokens: nat, cost: Item -> nat)
    ensures StrictlyPaired(conv) ==> StrictlyPaired(Fitted(conv, maxTokens, cost))
    ensures WellPaired(conv) ==> WellPaired(Fitted(conv, maxTokens, cost))
  {
    hide Fitted, KeptStart, PairedAt, InOwnRun, SameShapes;
    var head, body, out := Head(conv), Body(conv), Fitted(conv, maxTokens, cost);
    var start := KeptStart(conv, maxTokens, cost);
    var suffix := head + body[start..];
    FittedIsSuffix(conv, maxTokens, cost);
    WellPairedIsStrict(conv);
    if StrictlyPaired(conv) {
      var n, m := |head| + start, |head|;
      assert conv[n..] == suffix[m..];
      SameLengths(out, suffix);
      forall i | 0 <= i < |suffix|
        ensures InOwnRun(None, out, i)
        ensures WellPaired(conv) ==> PairedAt(None, out, i)
      {
        ShapesPaired(out, suffix, i);
        if i < m {
          HeadPaired(suffix);
        } else {
          SameTailPaired(conv, n, suffix, m, i - m);
          assert InOwnRun(None, conv, n + (i - m));
        }
      }
    }
  }

  lemma SameLengths(a: seq<Item>, b: seq<Item>)
    requires SameShapes(a, b)
    ensures |a| == |b|
  {
  }

  lemma HeadPaired(s: seq<Item>)
    requires s != [] && s[0].System?
    ensures PairedAt(None, s, 0) && InOwnRun(None, s, 0)
  {
  }

  lemma WellPairedIsStrict(s: seq<Item>)
    ensures WellPaired(s) ==> StrictlyPaired(s)
  {
    if WellPaired(s) {
      forall i | 0 <= i < |s| ensures InOwnRun(None, s, i) {
        assert PairedAt(None, s, i);
      }
    }
  }

  /** The most recent item survives, at most with its text cut, and the System head stays. */
  lemma FittedKeepsEnds(conv: seq<Item>, maxTokens: nat, cost: Item -> nat)
    requires conv != []
    ensures var out := Fitted(conv, maxTokens, cost);
            out != [] && SameShape(out[|out| - 1], conv[|conv| - 1])
            && (conv[0].System? ==> out[0] == conv[0])
  {
    hide Fitted, KeptStart, SameShapes, SameShape;
    var head, body, out := Head(conv), Body(conv), Fitted(conv, maxTokens, cost);
    var start := KeptStart(conv, maxTokens, cost);
    var suffix := head + body[start..];
    FittedIsSuffix(conv, maxTokens, cost);
    SameLengths(out, suffix);
    assert suffix[|suffix| - 1] == conv[|conv| - 1];
    ShapeAt(out, suffix, |suffix| - 1);
    if conv[0].System? {
      ShapeAt(out, suffix, 0);
      SystemShape(out[0], conv[0]);
    }
  }

  lemma SystemShape(a: Item, b: Item)
    requires SameShape(a, b) && b.System?
    ensures a == b
  {
  }

  // ---- the budget ----

  /** When a suffix fits, the outcome costs at most the budget, or the head alone. */
  lemma SuffixExitCost(conv: seq<Item>, maxTokens: nat, cost: Item -> nat)
    requires var budget := SaturatingSub(maxTokens, Cost(Head(conv), cost));
             PastResults(Body(conv), FitStart(Body(conv), budget, cost)) < |Body(conv)|
    ensures Cost(Fitted(conv, maxTokens, cost), cost) <= maxTokens
         || Cost(Fitted(conv, maxTokens, cost), cost) <= Cost(Head(conv), cost)
  {
    hide Cost, FitStart, PastResults;
    var body, budget := Body(conv), SaturatingSub(maxTokens, Cost(Head(conv), cost));
    var s := FitStart(body, budget, cost);
    var p := PastResults(body, s);
    CostSuffixMonotonic(body, s, p, cost);
    CostConcat(Head(conv), body[p..], cost);
  }

  // ---- nothing that fits is dropped ----

  lemma FitStartBefore(body: seq<Item>, j: nat, budget: nat, cost: Item -> nat)
    requires j < |body| && !body[j].ToolResult? && Cost(body[j..], cost) <= budget
    ensures PastResults(body, FitStart(body, budget, cost)) <= j
  {
    hide Cost, FitStart, PastResults;
    assert FitStart(body, budget, cost) <= j;
  }

  lemma FittedOnSuffix(conv: seq<Item>, maxTokens: nat, cost: Item -> nat)
    requires var budget := SaturatingSub(maxTokens, Cost(Head(conv), cost));
             PastResults(Body(conv), FitStart(Body(conv), budget, cost)) < |Body(conv)|
    ensures var budget := SaturatingSub(maxTokens, Cost(Head(conv), cost));
            var start := PastResults(Body(conv), FitStart(Body(conv), budget, cost));
            Fitted(conv, maxTokens, cost)
            == if Cost(conv, cost) <= maxTokens then conv else Head(conv) + Body(conv)[start..]
  {
    hide Cost, FitStart, PastResults, TailUnit, Head, Body;
  }

  lemma HeadIs(conv: seq<Item>, h: nat)
    requires h == if conv != [] && conv[0].System? then 1 else 0
    ensures h <= |conv| && Head(conv) == conv[..h] && Body(conv) == conv[h..]
  {
  }

  predicate EndsInSuffix(out: seq<Item>, conv: seq<Item>, h: nat, i: nat)
    requires h <= i <= |conv|
  {
    var n := |conv| - i;
    |out| >= h + n && out[|out| - n..] == conv[i..] && out[..h] == conv[..h]
  }

  lemma SuffixOfSuffix(conv: seq<Item>, h: nat, start: nat, i: nat)
    requires h + start <= i <= |conv|
    ensures EndsInSuffix(conv, conv, h, i) && EndsInSuffix(conv[..h] + conv[h..][start..], conv, h, i)
  {
  }

  /** A suffix that starts at no result and fits with the System head comes back as it was, the
      head, if there is one, in front. */
  lemma FittingSuffixKept(conv: seq<Item>, h: nat, i: nat, maxTokens: nat, cost: Item -> nat)
    requires h == (if conv != [] && conv[0].System? then 1 else 0) && h <= i < |conv| && !conv[i].ToolResult?
    requires Cost(conv[..h], cost) + Cost(conv[i..], cost) <= maxTokens
    ensures var out, n := Fitted(conv, maxTokens, cost), |conv| - i;
            |out| >= h + n && out[|out| - n..] == conv[i..] && out[..h] == conv[..h]
  {
    hide Cost, FitStart, PastResults, TailUnit, Head, Body, Fitted, SaturatingSub;
    HeadIs(conv, h);
    var body, j := conv[h..], i - h;
    assert body[j..] == conv[i..] && body[j] == conv[i];
    var budget := SaturatingSub(maxTokens, Cost(conv[..h], cost));
    RoomLeft(maxTokens, Cost(conv[..h], cost), Cost(conv[i..], cost));
    FitStartBefore(body, j, budget, cost);
    FittedOnSuffix(conv, maxTokens, cost);
    SuffixOfSuffix(conv, h, PastResults(body, FitStart(body, budget, cost)), i);
    assert EndsInSuffix(Fitted(conv, maxTokens, cost), conv, h, i);
  }

  lemma RoomLeft(a: nat, b: nat, c: nat)
    requires b + c <= a
    ensures c <= SaturatingSub(a, b)
  {
  }
}
