/** What an estimate counts, character by character and item by item, and how far it can fall below
    the bytes. */
module TokenCensus {
  import opened Conversation
  import opened Utf8
  import opened TokenEstimate

  /** The characters of `s` that are in the class, in their order. */
  function Only(s: string, of: char -> bool): string {
    if s == "" then "" else (if of(s[0]) then [s[0]] else "") + Only(s[1..], of)
  }

  predicate IsAscii(c: char) {
    c as int < 128
  }

  /** The three ranges whose characters are charged at three fifths of a token. */
  predicate IsWide(c: char) {
    var n := c as int;
    0x2E80 <= n <= 0x9FFF || 0xF900 <= n <= 0xFAFF || 0xFF00 <= n <= 0xFFEF
  }

  predicate IsOther(c: char) {
    !IsAscii(c) && !IsWide(c)
  }

  lemma {:induction false} CensusIs(s: string)
    ensures Count(s) == Census(|Only(s, IsAscii)|, |Only(s, IsWide)|, ByteLen(Only(s, IsOther)))
  {
    if s != "" {
      CensusIs(s[1..]);
      ByteLenCons(s[0], Only(s[1..], IsOther));
      hide Encode, EncodeChar;
    } else {
      NoBytes();
    }
  }

  lemma NoBytes()
    ensures ByteLen("") == 0
  {
  }

  lemma ByteLenCons(c: char, s: string)
    ensures ByteLen([c] + s) == |EncodeChar(c)| + ByteLen(s) && ByteLen("" + s) == ByteLen(s)
  {
    assert ([c] + s)[1..] == s && "" + s == s;
    hide EncodeChar;
  }

  /** A text is charged by the characters of three classes, wherever they stand: a quarter token a
      character, three fifths, rounded up, and a quarter token a byte. */
  lemma EstimateTextIs(s: string)
    ensures EstimateText(s)
         == |Only(s, IsAscii)| / 4 + (3 * |Only(s, IsWide)| + 4) / 5 + ByteLen(Only(s, IsOther)) / 4
  {
    CensusIs(s);
    hide Count, Only, Encode;
  }

  /** A text has at most five bytes for each token it is charged, and six more. */
  lemma EstimateCovers(s: string)
    ensures ByteLen(s) <= 5 * EstimateText(s) + 6
  {
    CensusCountsBytes(s);
    hide Count, Encode;
    var n := Count(s);
    FifthBound(n.ascii, n.cjk, n.other);
  }

  lemma FifthBound(a: nat, c: nat, o: nat)
    ensures a + 3 * c + o <= 5 * (a / 4 + (c * 3 + 4) / 5 + o / 4) + 6
  {
  }

  // ---- items ----

  function TextsIn(parts: seq<ContentPart>): seq<string> {
    if parts == [] then []
    else (if parts[0].TextPart? then [parts[0].text] else []) + TextsIn(parts[1..])
  }

  function ImagesIn(parts: seq<ContentPart>): nat {
    if parts == [] then 0 else (if parts[0].TextPart? then 0 else 1) + ImagesIn(parts[1..])
  }

  /** The texts of an item that are charged: of a call its arguments, of a result its content. */
  function Charged(item: Item): seq<string> {
    match item
    case System(content) => [content]
    case User(parts, _) => TextsIn(parts)
    case Assistant(content, calls) => [content] + seq(|calls|, k requires 0 <= k < |calls| => calls[k].arguments)
    case ToolResult(_, content, _) => [content]
    case BackendToolCall(summary) => [summary]
    case Reasoning(text, _) => [text]
  }

  function Charge(texts: seq<string>): nat {
    if texts == [] then 0 else EstimateText(texts[0]) + Charge(texts[1..])
  }

  lemma ChargeCons(s: string, texts: seq<string>)
    ensures Charge([s] + texts) == EstimateText(s) + Charge(texts) && Charge([] + texts) == Charge(texts)
  {
    hide EstimateText;
    assert ([s] + texts)[1..] == texts && [] + texts == texts;
  }

  lemma ChargeNone()
    ensures Charge([]) == 0
  {
  }

  lemma {:induction false} PartsCharge(parts: seq<ContentPart>)
    ensures EstimateParts(parts) == Charge(TextsIn(parts)) + 765 * ImagesIn(parts)
  {
    hide EstimateText, Charge;
    if parts == [] {
      ChargeNone();
    } else {
      PartsCharge(parts[1..]);
      ChargeCons(if parts[0].TextPart? then parts[0].text else "", TextsIn(parts[1..]));
    }
  }

  lemma {:induction false} CallsCharge(calls: seq<ToolCall>)
    ensures EstimateCalls(calls) == Charge(seq(|calls|, k requires 0 <= k < |calls| => calls[k].arguments))
  {
    hide EstimateText, Charge;
    var texts := seq(|calls|, k requires 0 <= k < |calls| => calls[k].arguments);
    if calls == [] {
      ChargeNone();
    } else {
      var rest := seq(|calls[1..]|, k requires 0 <= k < |calls[1..]| => calls[1..][k].arguments);
      CallsCharge(calls[1..]);
      ChargeCons(calls[0].arguments, rest);
      assert texts == [calls[0].arguments] + rest;
    }
  }

  /** An item is charged for its texts, 765 tokens for each image of a user item, and a quarter
      token for each byte of encrypted reasoning; nothing is charged for the images of a result. */
  lemma EstimateItemIs(item: Item)
    ensures EstimateItem(item)
         == Charge(Charged(item))
            + (if item.User? then 765 * ImagesIn(item.parts) else 0)
            + (if item.Reasoning? then item.encryptedBytes / 4 else 0)
  {
    hide EstimateText, Charge, EstimateParts, EstimateCalls, TextsIn, ImagesIn;
    ChargeNone();
    match item
    case User(parts, _) => PartsCharge(parts);
    case Assistant(content, calls) =>
      CallsCharge(calls);
      ChargeCons(content, seq(|calls|, k requires 0 <= k < |calls| => calls[k].arguments));
    case _ =>
      var s := Charged(item)[0];
      ChargeCons(s, []);
      assert [s] + [] == [s];
  }
}
