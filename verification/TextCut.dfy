/** `truncate_text_to_bytes` and `truncate_item_to_tokens`. */
module TextCut {
  import opened Options
  import opened Conversation
  import opened Utf8

  const MARKER_RESERVE: nat := 64
  const USIZE_MAX: nat := 0xFFFF_FFFF_FFFF_FFFF

  function Max(a: nat, b: nat): nat {
    if a >= b then a else b
  }

  function SaturatingSub(a: nat, b: nat): nat {
    if a >= b then a - b else 0
  }

  function SaturatingMul(a: nat, b: nat): nat {
    if a * b <= USIZE_MAX then a * b else USIZE_MAX
  }

  const MARKER_HEAD := "\n[... truncated "
  const MARKER_TAIL := " bytes to fit the compaction window ...]"

  function Marker(dropped: nat): string {
    MARKER_HEAD + Decimal(dropped) + MARKER_TAIL
  }

  lemma MarkerBytes(dropped: nat)
    ensures ByteLen(Marker(dropped)) == 56 + |Decimal(dropped)|
  {
    hide Encode, Decimal;
    AsciiLength(Decimal(dropped));
    AsciiLength(MARKER_HEAD);
    AsciiLength(MARKER_TAIL);
    ByteLenConcat(MARKER_HEAD, Decimal(dropped));
    ByteLenConcat(MARKER_HEAD + Decimal(dropped), MARKER_TAIL);
  }

  /** `s` cut to as many whole characters as fit in `maxBytes` less the marker's reserve. */
  function CutText(s: string, maxBytes: nat): Option<string> {
    if ByteLen(s) <= maxBytes then None
    else
      var kept := s[..CharsWithin(s, SaturatingSub(maxBytes, MARKER_RESERVE))];
      Some(kept + Marker(SaturatingSub(ByteLen(s), ByteLen(kept))))
  }

  // ---- how characters and bytes line up ----

  lemma {:induction false} CharsWithinFits(s: string, k: nat)
    ensures ByteLen(s[..CharsWithin(s, k)]) <= k
    ensures CharsWithin(s, k) < |s| ==> k < ByteLen(s[..CharsWithin(s, k) + 1])
    ensures ByteLen(s[..CharsWithin(s, k)]) <= ByteLen(s)
  {
    if s != "" {
      var m := CharsWithin(s, k);
      if m > 0 {
        CharsWithinFits(s[1..], k - |EncodeChar(s[0])|);
        PrefixBytes(s, m);
        if m < |s| { PrefixBytes(s, m + 1); }
      } else {
        assert s[..1][1..] == "";
        assert Encode(s[..1]) == EncodeChar(s[0]) + [];
      }
    }
  }

  lemma PrefixBytes(s: string, m: nat)
    requires 0 < m <= |s|
    ensures ByteLen(s[..m]) == |EncodeChar(s[0])| + ByteLen(s[1..][..m - 1])
  {
    assert s[..m][1..] == s[1..][..m - 1];
  }

  lemma {:induction false} PrefixIsBoundary(s: string, m: nat)
    requires m <= |s|
    ensures ByteLen(s[..m]) <= ByteLen(s) && IsCharBoundary(Encode(s), ByteLen(s[..m]))
    ensures CharsWithin(s, ByteLen(s[..m])) == m
  {
    assert s == s[..m] + s[m..];
    EncodeConcat(s[..m], s[m..]);
    if m < |s| {
      assert Encode(s)[ByteLen(s[..m])] == Encode(s[m..])[0];
    }
    if m > 0 {
      PrefixBytes(s, m);
      PrefixIsBoundary(s[1..], m - 1);
    }
  }

  /** The cut the loop finds is the longest prefix of whole characters. */
  lemma CutIsLongest(s: string, keep: nat, end: nat)
    requires end <= keep <= ByteLen(s) && IsCharBoundary(Encode(s), end)
    requires forall e: nat :: end < e <= keep ==> !IsCharBoundary(Encode(s), e)
    ensures end == ByteLen(s[..CharsWithin(s, keep)])
    ensures CharsWithin(s, end) == CharsWithin(s, keep)
  {
    hide Encode, CharsWithin, IsCharBoundary;
    var m := CharsWithin(s, keep);
    CharsWithinFits(s, keep);
    PrefixIsBoundary(s, m);
    assert ByteLen(s[..m]) <= end;
    BoundaryIsPrefix(s, end);
    var n := CharsWithin(s, end);
    PrefixIsBoundary(s, n);
    if m < n {
      PrefixLonger(s, m + 1, n);
      assert false;
    }
    if n < m {
      CharsWithinFits(s, end);
      PrefixLonger(s, n + 1, m);
      assert false;
    }
  }

  lemma PrefixLonger(s: string, a: nat, b: nat)
    requires a <= b <= |s|
    ensures ByteLen(s[..a]) <= ByteLen(s[..b])
  {
    assert s[..b] == s[..a] + s[a..b];
    EncodeConcat(s[..a], s[a..b]);
  }

  method TruncateTextToBytes(s: string, maxBytes: nat) returns (r: Option<string>)
    ensures r == CutText(s, maxBytes)
  {
    var bytes := Encode(s);
    if |bytes| <= maxBytes {
      return None;
    }
    var keep := SaturatingSub(maxBytes, MARKER_RESERVE);
    var end := if keep <= |bytes| then keep else |bytes|;
    while end > 0 && !IsCharBoundary(bytes, end)
      invariant 0 <= end <= keep <= |bytes|
      invariant forall e: nat :: end < e <= keep ==> !IsCharBoundary(bytes, e)
    {
      end := end - 1;
    }
    CutIsLongest(s, keep, end);
    var dropped := |bytes| - end;
    r := Some(s[..CharsWithin(s, end)] + Marker(dropped));
  }

  /** What the cut keeps, and exactly how long the result is. */
  lemma CutTextShape(s: string, maxBytes: nat)
    ensures CutText(s, maxBytes).None? <==> ByteLen(s) <= maxBytes
    ensures CutText(s, maxBytes).Some? ==>
              exists m :: 0 <= m <= |s| && IsCut(s, maxBytes, m, CutText(s, maxBytes).value)
  {
    hide Encode, CharsWithin, Marker;
    if ByteLen(s) > maxBytes {
      var keep := SaturatingSub(maxBytes, MARKER_RESERVE);
      var m := CharsWithin(s, keep);
      CharsWithinFits(s, keep);
      PrefixIsBoundary(s, m);
      var dropped := ByteLen(s) - ByteLen(s[..m]);
      MarkerBytes(dropped);
      ByteLenConcat(s[..m], Marker(dropped));
      assert s[..|s|] == s;
      if m < |s| {
        NextCharBytes(s, m);
      }
      assert IsCut(s, maxBytes, m, CutText(s, maxBytes).value);
    }
  }

  /** `r` is the first `m` characters of `s` and the marker; the prefix leaves at most
      three bytes of the room below the reserve unused. */
  ghost predicate IsCut(s: string, maxBytes: nat, m: nat, r: string)
    requires m <= |s|
  {
    var keep, end := SaturatingSub(maxBytes, MARKER_RESERVE), ByteLen(s[..m]);
    && end <= keep && end <= ByteLen(s) && keep - end <= 3
    && r == s[..m] + Marker(ByteLen(s) - end)
    && ByteLen(r) == end + 56 + |Decimal(ByteLen(s) - end)|
  }

  lemma NextCharBytes(s: string, m: nat)
    requires m < |s|
    ensures ByteLen(s[..m + 1]) <= ByteLen(s[..m]) + 4
  {
    assert s[..m + 1] == s[..m] + [s[m]];
    EncodeConcat(s[..m], [s[m]]);
    assert [s[m]][1..] == "";
  }

  /** The length bound for every input: the nominal size, or the reserve if that is larger,
      plus whatever the byte count in the marker has beyond eight digits. */
  lemma CutTextBound(s: string, maxBytes: nat)
    requires ByteLen(s) > maxBytes
    ensures var r := CutText(s, maxBytes).value;
            var limit := if maxBytes >= MARKER_RESERVE then maxBytes else MARKER_RESERVE;
            ByteLen(r) <= limit + SaturatingSub(|Decimal(ByteLen(s))|, 8)
    ensures ByteLen(s) < 100_000_000 ==>
              ByteLen(CutText(s, maxBytes).value) <= (if maxBytes >= MARKER_RESERVE then maxBytes else MARKER_RESERVE)
  {
    hide Encode, Decimal, CutText;
    CutTextShape(s, maxBytes);
    var r := CutText(s, maxBytes).value;
    var m :| 0 <= m <= |s| && IsCut(s, maxBytes, m, r);
    var dropped := ByteLen(s) - ByteLen(s[..m]);
    DigitsMonotonic(dropped, ByteLen(s));
    if ByteLen(s) < 100_000_000 {
      assert Pow10(8) == 100_000_000;
      DecimalAtMost(ByteLen(s), 8);
    }
  }

  lemma DigitsMonotonic(a: nat, b: nat)
    requires a <= b
    ensures |Decimal(a)| <= |Decimal(b)|
  {
    DecimalLength(b);
    DecimalAtMost(a, |Decimal(b)|);
  }

  /** Below the reserve the result is the bare marker: it fits exactly when the marker does. */
  lemma SmallBudgetFits(s: string, maxBytes: nat)
    requires maxBytes < ByteLen(s) && maxBytes <= MARKER_RESERVE
    ensures ByteLen(CutText(s, maxBytes).value) <= maxBytes <==> 56 + |Decimal(ByteLen(s))| <= maxBytes
  {
    hide Encode, Decimal, CutText;
    CutTextShape(s, maxBytes);
    var r := CutText(s, maxBytes).value;
    var m :| 0 <= m <= |s| && IsCut(s, maxBytes, m, r);
  }

  /** From the reserve on, the result fits exactly when the byte count's digits beyond eight
      fit into the room that the boundary search leaves unused. */
  lemma LargeBudgetFits(s: string, maxBytes: nat)
    requires MARKER_RESERVE <= maxBytes < ByteLen(s)
    ensures var keep := maxBytes - MARKER_RESERVE; var end := ByteLen(s[..CharsWithin(s, keep)]);
            && end <= keep <= ByteLen(s)
            && (ByteLen(CutText(s, maxBytes).value) <= maxBytes
                <==> |Decimal(ByteLen(s) - end)| <= 8 + (keep - end))
  {
    hide Encode, Decimal, CharsWithin, Marker;
    var keep := maxBytes - MARKER_RESERVE;
    var m := CharsWithin(s, keep);
    CharsWithinFits(s, keep);
    PrefixIsBoundary(s, m);
    var dropped := ByteLen(s) - ByteLen(s[..m]);
    MarkerBytes(dropped);
    ByteLenConcat(s[..m], Marker(dropped));
  }

  /** Truncation makes a text longer exactly when the text has fewer than 58 bytes. */
  lemma CutTextGrowsIff(s: string, maxBytes: nat)
    requires maxBytes < ByteLen(s)
    ensures ByteLen(CutText(s, maxBytes).value) > ByteLen(s) <==> ByteLen(s) < 58
  {
    hide Encode, Decimal, CutText;
    CutTextShape(s, maxBytes);
    var r := CutText(s, maxBytes).value;
    var m :| 0 <= m <= |s| && IsCut(s, maxBytes, m, r);
    var dropped := ByteLen(s) - ByteLen(s[..m]);
    SmallNumbers(dropped);
  }

  /** A number below 58 has at most two digits; no digit count reaches the number plus one. */
  lemma SmallNumbers(n: nat)
    ensures 10 <= n < 100 ==> |Decimal(n)| == 2
    ensures n < 10 ==> |Decimal(n)| == 1
    ensures n >= 100 ==> 3 <= |Decimal(n)| <= n - 56
  {
    DecimalLength(n);
    if n >= 100 {
      hide Decimal;
      DigitsBelow(n);
    }
  }

  lemma {:induction false} DigitsBelow(n: nat)
    requires n >= 100
    ensures 3 <= |Decimal(n)| <= 3 + (n - 100)
  {
    if n < 1000 {
      assert |Decimal(n)| == |Decimal(n / 10 / 10)| + 2;
    } else {
      DigitsBelow(n / 10);
    }
  }

  // ---- items ----

  /** One text of an item, cut if it is too long. */
  function CutTo(text: string, maxBytes: nat): string {
    match CutText(text, maxBytes)
    case Some(r) => r
    case None => text
  }

  function CutPart(part: ContentPart, maxBytes: nat): ContentPart {
    if part.TextPart? then TextPart(CutTo(part.text, maxBytes)) else part
  }

  function CutParts(parts: seq<ContentPart>, maxBytes: nat): seq<ContentPart> {
    seq(|parts|, i requires 0 <= i < |parts| => CutPart(parts[i], maxBytes))
  }

  function CutItem(item: Item, maxTokens: nat): Item {
    var maxBytes := SaturatingMul(maxTokens, 4);
    match item
    case ToolResult(id, content, images) => ToolResult(id, CutTo(content, maxBytes), images)
    case Assistant(content, calls) => Assistant(CutTo(content, maxBytes), calls)
    case User(parts, reason) => User(CutParts(parts, maxBytes), reason)
    case _ => item
  }

  method TruncateItemToTokens(item: Item, maxTokens: nat) returns (r: Item)
    ensures r == CutItem(item, maxTokens)
  {
    var maxBytes := SaturatingMul(maxTokens, 4);
    r := item;
    match item
    case ToolResult(id, content, images) =>
      var cut := TruncateTextToBytes(content, maxBytes);
      if cut.Some? { r := ToolResult(id, cut.value, images); }
    case Assistant(content, calls) =>
      var cut := TruncateTextToBytes(content, maxBytes);
      if cut.Some? { r := Assistant(cut.value, calls); }
    case User(parts, reason) =>
      var done := parts;
      for i := 0 to |parts|
        invariant |done| == |parts|
        invariant forall k :: 0 <= k < i ==> done[k] == CutPart(parts[k], maxBytes)
        invariant forall k :: i <= k < |parts| ==> done[k] == parts[k]
      {
        if parts[i].TextPart? {
          var cut := TruncateTextToBytes(parts[i].text, maxBytes);
          if cut.Some? { done := done[i := TextPart(cut.value)]; }
        }
      }
      assert done == CutParts(parts, maxBytes);
      r := User(done, reason);
    case _ =>
  }

  /** `a` and `b` are the same item up to the text they carry. */
  predicate SameShape(a: Item, b: Item) {
    match b
    case System(_) => a == b
    case User(parts, reason) => a.User? && a.syntheticReason == reason && |a.parts| == |parts|
    case Assistant(_, calls) => a.Assistant? && a.toolCalls == calls
    case ToolResult(id, _, images) => a.ToolResult? && a.callId == id && a.images == images
    case BackendToolCall(_) => a == b
    case Reasoning(_, _) => a == b
  }
}
