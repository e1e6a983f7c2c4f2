/** How much text the truncating exits of `fit_conversation_to_budget` leave: all that there is
    room for, and less than four bytes below it. */
module TailShares {
  import opened Options
  import opened Conversation
  import opened Turns
  import opened Utf8
  import opened TextCut
  import opened BudgetFit
  import opened TokenEstimate
  import opened TruncationCost

  /** `cut` is `whole` when that has at most `bytes` bytes; else it is a prefix of it that has at
      most the bytes below the marker's 64, and at most three less, and the marker with the number
      of bytes that were dropped. */
  ghost predicate KeepsText(whole: string, cut: string, bytes: nat) {
    if ByteLen(whole) <= bytes then cut == whole
    else exists m :: 0 <= m <= |whole| && KeepsPrefix(whole, cut, bytes, m)
  }

  ghost predicate KeepsPrefix(whole: string, cut: string, bytes: nat, m: nat)
    requires m <= |whole|
  {
    var kept := ByteLen(whole[..m]);
    && kept <= ByteLen(whole) && kept <= (if bytes >= 64 then bytes - 64 else 0) <= kept + 3
    && cut == whole[..m] + "\n[... truncated " + Decimal(ByteLen(whole) - kept)
              + " bytes to fit the compaction window ...]"
  }

  /** Four bytes a token, in a machine word. */
  function BytesFor(tokens: nat): nat {
    if 4 * tokens < 0x1_0000_0000_0000_0000 then 4 * tokens else 0xFFFF_FFFF_FFFF_FFFF
  }

  /** The texts of an item are kept so far, and all else of it is kept. */
  ghost predicate KeepsItem(whole: Item, cut: Item, bytes: nat) {
    match whole
    case ToolResult(id, content, images) =>
      cut.ToolResult? && cut.callId == id && cut.images == images && KeepsText(content, cut.content, bytes)
    case Assistant(content, calls) =>
      cut.Assistant? && cut.toolCalls == calls && KeepsText(content, cut.content, bytes)
    case User(parts, reason) =>
      && cut.User? && cut.syntheticReason == reason && |cut.parts| == |parts|
      && forall k :: 0 <= k < |parts| ==>
           if parts[k].TextPart? then cut.parts[k].TextPart? && KeepsText(parts[k].text, cut.parts[k].text, bytes)
           else cut.parts[k] == parts[k]
    case _ => cut == whole
  }

  lemma CutKeepsText(s: string, maxBytes: nat)
    ensures KeepsText(s, CutTo(s, maxBytes), maxBytes)
  {
    hide Encode, Decimal, CutText;
    CutTextShape(s, maxBytes);
    if ByteLen(s) > maxBytes {
      var r := CutText(s, maxBytes).value;
      var m :| 0 <= m <= |s| && IsCut(s, maxBytes, m, r);
      var dropped := Decimal(ByteLen(s) - ByteLen(s[..m]));
      MarkerText();
      hide MARKER_HEAD, MARKER_TAIL;
      assert s[..m] + (MARKER_HEAD + dropped + MARKER_TAIL) == s[..m] + MARKER_HEAD + dropped + MARKER_TAIL;
      assert KeepsPrefix(s, r, maxBytes, m);
    }
  }

  lemma MarkerText()
    ensures MARKER_HEAD == "\n[... truncated " && MARKER_TAIL == " bytes to fit the compaction window ...]"
  {
  }

  /** Truncating an item to `maxTokens` keeps its texts up to four bytes a token, each on its own,
      and everything else. */
  lemma CutItemKeeps(item: Item, maxTokens: nat)
    ensures KeepsItem(item, CutItem(item, maxTokens), BytesFor(maxTokens))
  {
    hide KeepsText, CutTo;
    var bytes := BytesFor(maxTokens);
    assert SaturatingMul(maxTokens, 4) == bytes;
    match item
    case ToolResult(_, content, _) => CutKeepsText(content, bytes);
    case Assistant(content, _) => CutKeepsText(content, bytes);
    case User(parts, _) =>
      forall k | 0 <= k < |parts| && parts[k].TextPart?
        ensures KeepsText(parts[k].text, CutTo(parts[k].text, bytes), bytes)
      {
        CutKeepsText(parts[k].text, bytes);
      }
    case _ =>
  }

  /** `room` in `n` equal shares, each of one token at least. */
  predicate EvenShare(room: nat, n: nat, share: nat) {
    share >= 1 && if room < n then share == 1 else n * share <= room < n * (share + 1)
  }

  lemma ShareIsEven(budget: nat, spent: nat, n: nat, share: nat)
    requires n > 0 && EvenShare(SaturatingSub(budget, spent), n, share)
    ensures PerResult(budget, spent, n) == share
  {
    var room := SaturatingSub(budget, spent);
    if room < n {
      assert room / n == 0;
    } else {
      QuotientIs(room, n, share);
    }
  }

  lemma QuotientIs(room: nat, n: nat, q: nat)
    requires n > 0 && n * q <= room < n * (q + 1)
    ensures room / n == q
  {
    var d, r := room / n, room % n;
    assert room == n * d + r;
    if d < q {
      TimesMonotonic(n, d + 1, q);
    } else if d > q {
      TimesMonotonic(n, q + 1, d);
    }
  }

  lemma TimesMonotonic(n: nat, a: nat, b: nat)
    requires a <= b
    ensures n * a <= n * b
  {
  }

  /** The trailing results, from `p` on, come back behind the Assistant that calls, when there is
      one, which is kept in full; what its cost leaves of the budget is shared out evenly, and each
      result keeps what its share has room for. */
  lemma TailUnitKeeps(body: seq<Item>, p: nat, budget: nat, share: nat, cost: Item -> nat)
    requires p < |body| && (p > 0 ==> !body[p - 1].ToolResult?) && forall k :: p <= k < |body| ==> body[k].ToolResult?
    requires var owned := p > 0 && body[p - 1].Assistant? && body[p - 1].toolCalls != [];
             var spent := if owned then cost(body[p - 1]) else 0;
             EvenShare(if budget >= spent then budget - spent else 0, |body| - p, share)
    ensures var owned := p > 0 && body[p - 1].Assistant? && body[p - 1].toolCalls != [];
            var unit, lead := TailUnit(body, budget, cost), if owned then 1 else 0;
            && |unit| == lead + |body| - p && (owned ==> unit[0] == body[p - 1])
            && forall k :: p <= k < |body| ==> KeepsItem(body[k], unit[lead + k - p], BytesFor(share))
  {
    hide CutItem, KeepsItem, BytesFor, TailUnit, PerResult, EvenShare, CutAll, TrailingStart;
    TrailingStartIs(body, p);
    var owner := Owner(body, p);
    ShareIsEven(budget, OwnerCost(owner, cost), |body| - p, share);
    TailUnitParts(body, budget, cost);
    UnitKeeps(OwnerItems(owner), body, p, share);
  }

  lemma TrailingStartIs(body: seq<Item>, p: nat)
    requires p <= |body| && (p > 0 ==> !body[p - 1].ToolResult?) && forall k :: p <= k < |body| ==> body[k].ToolResult?
    ensures TrailingStart(body) == p
  {
    hide TrailingStart;
  }

  lemma UnitKeeps(lead: seq<Item>, body: seq<Item>, p: nat, share: nat)
    requires p <= |body|
    ensures var unit := lead + CutAll(body[p..], share);
            && |unit| == |lead| + |body| - p && (lead != [] ==> unit[0] == lead[0])
            && forall k :: p <= k < |body| ==> KeepsItem(body[k], unit[|lead| + k - p], BytesFor(share))
  {
    hide CutItem, KeepsItem, BytesFor, CutAll;
    var results, cut := body[p..], CutAll(body[p..], share);
    CutAllKeeps(results, share);
    forall k | p <= k < |body| ensures KeepsItem(body[k], (lead + cut)[|lead| + k - p], BytesFor(share)) {
      assert results[k - p] == body[k] && (lead + cut)[|lead| + k - p] == cut[k - p];
    }
  }

  lemma CutAllKeeps(items: seq<Item>, share: nat)
    ensures |CutAll(items, share)| == |items|
    ensures forall k :: 0 <= k < |items| ==> KeepsItem(items[k], CutAll(items, share)[k], BytesFor(share))
  {
    hide CutItem, KeepsItem, BytesFor;
    forall k | 0 <= k < |items| ensures KeepsItem(items[k], CutItem(items[k], share), BytesFor(share)) {
      CutItemKeeps(items[k], share);
    }
  }
}
