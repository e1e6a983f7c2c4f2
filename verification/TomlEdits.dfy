/** What one edit of `config.toml` does: the blocks the tool writes, and the block lists
    on which inserting, updating and removing a block touches nothing else. */
module TomlEdits {
  import opened Options
  import opened Text
  import opened TomlBlocks
  import opened TomlSync
  import Utf8

  // ---- the blocks the tool writes ----

  /** An id that survives being printed into a header: one line, no bracket, no leading space. */
  predicate WellFormedId(id: string) {
    id != "" && !IsSpace(id[0]) && forall k :: 0 <= k < |id| ==> id[k] != '\n' && id[k] != ']'
  }

  predicate GoodModel(cfg: Settings, m: Model) {
    WellFormedId(m.id) && NoNewline(cfg.endpoint) && NoNewline(cfg.titleOf(m.id))
  }

  lemma LineOf(l: string)
    requires NoNewline(l)
    ensures IsLine(l + "\n") && l + "\n" != "" && (l != "" ==> (l + "\n")[0] == l[0])
  {
    assert (l + "\n")[..|l|] == l;
  }

  /** A line whose first character is visible and no bracket is not a header. */
  lemma NotAHeader(l: string)
    requires l != "" && !IsSpace(l[0]) && l[0] != '['
    ensures !IsHeader(l)
  {
    hide TrimBy;
    var a, b := TrimParts(l, IsSpace);
    assert a == 0 || a == b;
  }

  /** The header the tool prints is read back as the key it was printed for, exactly when the
      key has no outer space and no closing bracket. */
  lemma HeaderKey(key: string)
    requires key != ""
    ensures IsHeader(HEADER_LEAD + key + HEADER_TAIL + "\n")
    ensures KeyOfHeader(HEADER_LEAD + key + HEADER_TAIL + "\n") == Some(key) <==> TrimmedBy(key, IsSpace) && ']' !in key
  {
    hide TrimBy;
    var s := HEADER_LEAD + key + HEADER_TAIL;
    assert s[0] == '[' && s[|s| - 1] == ']';
    TrimIs("", s, "\n", IsSpace);
    assert "" + s + "\n" == s + "\n";
    assert Strip(s + "\n") == s;
    assert s[0..|MODEL_OPEN|] == MODEL_OPEN;
    var y := s[|MODEL_OPEN|..|s| - 1];
    assert y == "\"" + key + "\"";
    assert y[1..] == key + "\"" && (key + "\"")[..|key|] == key;
    assert ']' in y <==> ']' in key by {
      if ']' in key {
        var k :| 0 <= k < |key| && key[k] == ']';
        assert y[k + 1] == ']';
      }
    }
    TrimmedIsFixed(key, IsSpace);
  }

  lemma KeyIsTrimmed(m: Model)
    requires WellFormedId(m.id)
    ensures KeyFor(m) != "" && TrimmedBy(KeyFor(m), IsSpace)
    ensures forall k :: 0 <= k < |KeyFor(m)| ==> KeyFor(m)[k] != ']' && KeyFor(m)[k] != '\n'
    ensures Is222(KeyFor(m))
  {
    var key := KeyFor(m);
    assert key[0] == m.id[0] && key[|key| - 1] == '2';
    assert key[|m.id|..|m.id| + |SUFFIX|] == SUFFIX;
  }

  /** The block `b`, under its own header, ends its line. */
  predicate Writable(b: Block) {
    b.key.Some? && Headed(b) && EndsLine(b.text)
  }

  /** A line that starts with plain text and holds no newline of its own. */
  lemma PlainLine(prefix: string, middle: string, suffix: string)
    requires prefix != "" && !IsSpace(prefix[0]) && prefix[0] != '['
    requires NoNewline(prefix) && NoNewline(middle) && NoNewline(suffix)
    ensures var l := prefix + middle + suffix + "\n"; IsLine(l) && !IsHeader(l)
  {
    var body := prefix + middle + suffix;
    assert body[0] == prefix[0];
    LineOf(body);
    hide IsHeader, IsLine;
    NotAHeader(body + "\n");
  }

  lemma HeaderLine(key: string)
    requires NoNewline(key)
    ensures IsLine(HEADER_LEAD + key + HEADER_TAIL + "\n")
  {
    LineOf(HEADER_LEAD + key + HEADER_TAIL);
  }

  predicate PlainLead(s: string) {
    s != "" && !IsSpace(s[0]) && s[0] != '[' && NoNewline(s)
  }

  lemma LeadsArePlain()
    ensures PlainLead(ID_LEAD) && PlainLead(URL_LEAD) && PlainLead(NAME_LEAD)
    ensures PlainLead(API_LINE) && PlainLead(AUTH_LINE) && PlainLead(CONTEXT_LEAD)
    ensures NoNewline(QUOTE) && NoNewline(URL_TAIL) && NoNewline(NAME_TAIL) && NoNewline("")
  {
  }

  lemma LoneLine(l: string)
    requires PlainLead(l)
    ensures IsLine(l + "\n") && !IsHeader(l + "\n")
  {
    assert l + "" + "" == l;
    PlainLine(l, "", "");
  }

  lemma EndpointPlain(cfg: Settings)
    requires NoNewline(cfg.endpoint)
    ensures NoNewline(TrimEndBy(cfg.endpoint, IsSlash))
  {
    hide TrimEndBy;
    var t := TrimEndBy(cfg.endpoint, IsSlash);
    assert forall k :: 0 <= k < |t| ==> t[k] == cfg.endpoint[k];
  }

  lemma NumberPlain(n: nat)
    ensures NoNewline(Utf8.Decimal(n))
  {
  }

  lemma ConfigLinesGood(cfg: Settings, m: Model)
    requires GoodModel(cfg, m)
    ensures var ls := ConfigLines(cfg, m);
            && (forall k :: 0 <= k < |ls| ==> IsLine(ls[k]))
            && IsHeader(ls[0]) && KeyOfHeader(ls[0]) == Some(KeyFor(m))
            && (forall k :: 1 <= k < |ls| ==> !IsHeader(ls[k]))
  {
    hide *;
    GoodParts(cfg, m);
    ConfigLinesAre(cfg, m);
    HeaderKey(KeyFor(m));
    HeaderLine(KeyFor(m));
    LeadsArePlain();
    EndpointPlain(cfg);
    NumberPlain(m.ctx);
    LeadLine(ID_LEAD, m.id, QUOTE);
    LeadLine(URL_LEAD, TrimEndBy(cfg.endpoint, IsSlash), URL_TAIL);
    LeadLine(NAME_LEAD, cfg.titleOf(m.id), NAME_TAIL);
    LoneLine(API_LINE);
    LoneLine(AUTH_LINE);
    LeadLine(CONTEXT_LEAD, Utf8.Decimal(m.ctx), "");
    assert CONTEXT_LEAD + Utf8.Decimal(m.ctx) + "" == CONTEXT_LEAD + Utf8.Decimal(m.ctx);
  }

  lemma LeadLine(lead: string, middle: string, tail: string)
    requires PlainLead(lead) && NoNewline(middle) && NoNewline(tail)
    ensures IsLine(lead + middle + tail + "\n") && !IsHeader(lead + middle + tail + "\n")
  {
    PlainLine(lead, middle, tail);
  }

  lemma GoodParts(cfg: Settings, m: Model)
    requires GoodModel(cfg, m)
    ensures NoNewline(m.id) && NoNewline(cfg.endpoint) && NoNewline(cfg.titleOf(m.id)) && NoNewline(KeyFor(m))
    ensures KeyFor(m) != "" && TrimmedBy(KeyFor(m), IsSpace) && forall k :: 0 <= k < |KeyFor(m)| ==> KeyFor(m)[k] != ']'
  {
    KeyIsTrimmed(m);
  }

  lemma ConfigLinesAre(cfg: Settings, m: Model)
    ensures ConfigLines(cfg, m) == [
              HEADER_LEAD + KeyFor(m) + HEADER_TAIL + "\n",
              ID_LEAD + m.id + QUOTE + "\n",
              URL_LEAD + TrimEndBy(cfg.endpoint, IsSlash) + URL_TAIL + "\n",
              NAME_LEAD + cfg.titleOf(m.id) + NAME_TAIL + "\n",
              API_LINE + "\n",
              AUTH_LINE + "\n",
              CONTEXT_LEAD + Utf8.Decimal(m.ctx) + "\n" ]
  {
  }

  lemma ConfigBlockWritable(cfg: Settings, m: Model)
    requires GoodModel(cfg, m)
    ensures Writable(Block(Some(KeyFor(m)), MakeConfigBlock(cfg, m)))
    ensures WithNewline(MakeConfigBlock(cfg, m)) == MakeConfigBlock(cfg, m)
  {
    var ls := ConfigLines(cfg, m);
    ConfigLinesGood(cfg, m);
    hide *;
    var text := MakeConfigBlock(cfg, m);
    ConfigIs(cfg, m);
    LinesOfConcat(ls);
    BodyHasNoHeaders(ls);
    HeadedFrom(Block(Some(KeyFor(m)), text), ls);
    ConcatEnds(ls);
    WritableIs(Block(Some(KeyFor(m)), text));
  }

  lemma ConfigIs(cfg: Settings, m: Model)
    ensures MakeConfigBlock(cfg, m) == Concat(ConfigLines(cfg, m)) && |ConfigLines(cfg, m)| == 7
  {
    hide Concat;
  }

  lemma BodyHasNoHeaders(ls: seq<string>)
    requires ls != [] && forall k :: 1 <= k < |ls| ==> !IsHeader(ls[k])
    ensures NoHeaders(ls[1..])
  {
    hide IsHeader;
  }

  lemma WritableIs(b: Block)
    ensures b.key.Some? && Headed(b) && EndsLine(b.text) ==> Writable(b) && WithNewline(b.text) == b.text
  {
    hide Headed;
  }

  lemma {:induction false} ConcatEnds(ls: seq<string>)
    requires ls != [] && forall k :: 0 <= k < |ls| ==> IsLine(ls[k])
    ensures EndsLine(Concat(ls))
  {
    if |ls| == 1 {
      ConcatOne(ls[0]);
      assert ls == [ls[0]];
    } else {
      ConcatEnds(ls[1..]);
      EndsAppended(ls[0], Concat(ls[1..]));
    }
  }

  // ---- tidy block lists ----

  /** Every block but the last ends its line, and only the first may lack a header. */
  predicate Tidy(bs: seq<Block>) {
    forall k :: 0 <= k < |bs| ==>
      (k + 1 < |bs| ==> EndsLine(bs[k].text)) && (Headed(bs[k]) || (k == 0 && Preamble(bs[k])))
  }

  /** So does the last. */
  predicate Ended(bs: seq<Block>) {
    bs == [] || EndsLine(bs[|bs| - 1].text)
  }

  /** The text is empty or ends its last line. */
  predicate Closed(text: string) {
    text == "" || EndsLine(text)
  }

  lemma TidyIff(bs: seq<Block>)
    ensures Tidy(bs) <==> Proper(bs)
  {
    hide Headed, Preamble, EndsLine;
    if bs != [] {
      var rest := bs[1..];
      assert forall k :: 0 <= k < |rest| ==> rest[k] == bs[k + 1];
      assert forall k :: 1 <= k < |bs| ==> bs[k] == rest[k - 1];
    }
  }

  lemma TidyNonempty(bs: seq<Block>, k: nat)
    requires Tidy(bs) && k < |bs|
    ensures bs[k].text != ""
  {
    hide Headed, Preamble, EndsLine;
    HeadedText(bs[k]);
    PreambleText(bs[k]);
  }

  lemma {:induction false} JoinEnds(bs: seq<Block>)
    requires bs != [] && bs[|bs| - 1].text != ""
    ensures Join(bs) != "" && (EndsLine(Join(bs)) <==> EndsLine(bs[|bs| - 1].text))
  {
    var rest := bs[1..];
    if rest == [] {
      assert bs[0].text + "" == bs[0].text;
    } else {
      assert rest[|rest| - 1] == bs[|bs| - 1];
      JoinEnds(rest);
      assert Join(bs)[|Join(bs)| - 1] == Join(rest)[|Join(rest)| - 1];
    }
  }

  lemma TidyJoin(bs: seq<Block>)
    requires Tidy(bs)
    ensures Split(Join(bs)) == bs && (Closed(Join(bs)) <==> Ended(bs))
  {
    hide Tidy, EndsLine, Split;
    TidyIff(bs);
    SplitJoin(bs);
    if bs != [] {
      TidyNonempty(bs, |bs| - 1);
      JoinEnds(bs);
    }
  }

  lemma SplitIsTidy(text: string)
    ensures Tidy(Split(text)) && Join(Split(text)) == text && (Closed(text) <==> Ended(Split(text)))
  {
    hide Tidy, Closed, Ended, Join, Split;
    SplitIsProper(text);
    TidyIff(Split(text));
    TidyJoin(Split(text));
  }

  // ---- edits on tidy lists ----

  lemma PreambleHasNoKey(bs: seq<Block>)
    ensures forall k :: 0 <= k < |bs| && Preamble(bs[k]) ==> bs[k].key == None
  {
  }

  /** Only behind a list that does not end its line a new block does not stand for itself. */
  lemma UpsertTidy(bs: seq<Block>, b: Block)
    requires Tidy(bs) && Writable(b)
    ensures Tidy(Upserted(bs, b)) <==> Ended(bs) || FirstWith(bs, b.key.value).Some? || UiIndex(bs).Some?
    ensures Ended(bs) ==> Ended(Upserted(bs, b))
  {
    PreambleHasNoKey(bs);
    hide Headed, Preamble, EndsLine, FirstWith, Replaced, UiIndex;
    var r, ui := Upserted(bs, b), UiIndex(bs);
    if FirstWith(bs, b.key.value).None? {
      if ui.Some? {
        var i := ui.value;
        assert forall k :: 0 <= k < |r| ==> r[k] == if k < i then bs[k] else if k == i then b else bs[k - 1];
      } else if bs != [] {
        assert r[|bs| - 1] == bs[|bs| - 1];
      }
    }
  }

  lemma UiIsFirst(bs: seq<Block>)
    ensures UiIndex(bs).Some? <==> FirstWith(bs, "ui").Some?
  {
    hide UiIndex, FirstWith;
    var ui, first := UiIndex(bs), FirstWith(bs, "ui");
    if first.Some? {
      var k :| 0 <= k < |bs| && bs[k] == first.value;
    }
    if ui.Some? {
      assert bs[ui.value] in bs;
    }
  }

  /** A block of the key does not come to stand behind an unended line: the text ends its
      last line, or holds the key, or holds one read as `ui` to stand before. */
  predicate Room(text: string, key: string) {
    Closed(text) || HasKey(text, key) || HasKey(text, "ui")
  }

  /** Inserting or updating one block edits the block list and nothing else, exactly when
      there is room for it. */
  lemma UpsertSplits(text: string, key: string, block: string)
    requires Writable(Block(Some(key), block)) && WithNewline(block) == block
    ensures Split(Upsert(text, key, block)) == Upserted(Split(text), Block(Some(key), block)) <==> Room(text, key)
    ensures Closed(text) ==> Closed(Upsert(text, key, block))
  {
    hide Split, Join, Upserted, WithNewline, Tidy, Closed, Ended, Writable, FirstWith, UiIndex;
    var bs, b := Split(text), Block(Some(key), block);
    SplitIsTidy(text);
    SplitIsTidy(Upsert(text, key, block));
    UiIsFirst(bs);
    UpsertTidy(bs, b);
    if Tidy(Upserted(bs, b)) { TidyJoin(Upserted(bs, b)); }
  }

  lemma ChainRest(bs: seq<Block>)
    requires Chain(bs) && bs != []
    ensures Chain(bs[1..]) && Headed(bs[0]) && (bs[1..] != [] ==> EndsLine(bs[0].text))
    ensures Ended(bs) ==> Ended(bs[1..])
  {
    hide Headed, EndsLine;
    var rest := bs[1..];
    assert forall k :: 0 <= k < |rest| ==> rest[k] == bs[k + 1];
  }

  lemma WithoutCons(bs: seq<Block>, key: string)
    ensures Without(bs, key)
         == if bs == [] then []
            else if bs[0].key == Some(key) then Without(bs[1..], key) else [bs[0]] + Without(bs[1..], key)
  {
    if bs != [] {
      var r := Without(bs[1..], key);
      assert [] + r == r;
    }
  }

  lemma EndedCons(b: Block, bs: seq<Block>)
    ensures Ended([b] + bs) <==> if bs == [] then EndsLine(b.text) else Ended(bs)
  {
    hide EndsLine;
    var all := [b] + bs;
    assert bs != [] ==> all[|all| - 1] == bs[|bs| - 1];
  }

  lemma {:induction false} WithoutChain(bs: seq<Block>, key: string)
    requires Chain(bs)
    ensures var r := Without(bs, key); Chain(r) && (Ended(bs) ==> Ended(r)) && (bs == [] ==> r == [])
  {
    hide *;
    WithoutCons(bs, key);
    if bs != [] {
      var b, rest := bs[0], bs[1..];
      assert bs == [b] + rest;
      ChainRest(bs);
      WithoutChain(rest, key);
      ChainCons(b, Without(rest, key));
      EndedCons(b, rest);
      EndedCons(b, Without(rest, key));
    }
  }

  lemma WithoutTidy(bs: seq<Block>, key: string)
    requires Tidy(bs)
    ensures Tidy(Without(bs, key)) && (Ended(bs) ==> Ended(Without(bs, key)))
  {
    TidyIff(bs);
    TidyIff(Without(bs, key));
    ChainNone();
    hide Tidy, Chain, Ended, Without, Headed, Preamble, EndsLine;
    if Chain(bs) {
      WithoutChain(bs, key);
    } else if bs != [] {
      var b, rest := bs[0], bs[1..];
      assert bs == [b] + rest;
      WithoutCons(bs, key);
      WithoutChain(rest, key);
      PreambleHasNoKey(bs);
      PreambleFirst(b, Without(rest, key));
      EndedCons(b, rest);
      EndedCons(b, Without(rest, key));
    }
  }

  /** Removing a key takes its blocks out of the block list and does nothing else. */
  lemma RemoveSplits(text: string, key: string)
    ensures Split(RemoveConfigBlock(text, key)) == Without(Split(text), key)
    ensures Closed(text) ==> Closed(RemoveConfigBlock(text, key))
  {
    hide Split, Join, Without, Tidy, Closed, Ended;
    SplitIsTidy(text);
    WithoutTidy(Split(text), key);
    TidyJoin(Without(Split(text), key));
  }

  // ---- what an edit does to the blocks of one key, and to the rest ----

  lemma {:induction false} FirstWithConcat(a: seq<Block>, b: seq<Block>, key: string)
    ensures FirstWith(a + b, key) == if FirstWith(a, key).Some? then FirstWith(a, key) else FirstWith(b, key)
  {
    if a == [] {
      assert a + b == b;
    } else {
      assert (a + b)[1..] == a[1..] + b;
      FirstWithConcat(a[1..], b, key);
    }
  }

  lemma {:induction false} FirstReplaced(bs: seq<Block>, b: Block, key: string)
    ensures FirstWith(Replaced(bs, b), key)
         == if b.key == Some(key) && FirstWith(bs, key).Some? then Some(b) else FirstWith(bs, key)
  {
    if bs != [] {
      FirstReplaced(bs[1..], b, key);
      assert Replaced(bs, b)[1..] == Replaced(bs[1..], b);
    }
  }

  lemma FirstOfOne(b: Block, key: string)
    ensures FirstWith([b], key) == if b.key == Some(key) then Some(b) else None
  {
    assert [b][1..] == [];
  }

  /** After the edit its key leads to the new block, and every other key to what it did. */
  lemma FirstUpserted(bs: seq<Block>, b: Block, key: string)
    requires b.key.Some?
    ensures FirstWith(Upserted(bs, b), key) == if b.key == Some(key) then Some(b) else FirstWith(bs, key)
  {
    hide FirstWith, Replaced, UiIndex;
    FirstReplaced(bs, b, key);
    FirstOfOne(b, key);
    var ui := UiIndex(bs);
    if ui.Some? {
      var i := ui.value;
      FirstWithConcat(bs[..i] + [b], bs[i..], key);
      FirstWithConcat(bs[..i], [b], key);
      FirstWithConcat(bs[..i], bs[i..], key);
      assert bs[..i] + bs[i..] == bs;
    }
    FirstWithConcat(bs, [b], key);
  }

  lemma {:induction false} FirstWithout(bs: seq<Block>, gone: string, key: string)
    ensures FirstWith(Without(bs, gone), key) == if key == gone then None else FirstWith(bs, key)
  {
    if bs != [] {
      var rest := Without(bs[1..], gone);
      FirstWithout(bs[1..], gone, key);
      assert [] + rest == rest && ([bs[0]] + rest)[1..] == rest;
    }
  }

  /** The blocks whose key is not managed, in order. */
  function Others(bs: seq<Block>, managed: string -> bool): seq<Block> {
    if bs == [] then []
    else (if bs[0].key.Some? && managed(bs[0].key.value) then [] else [bs[0]]) + Others(bs[1..], managed)
  }

  lemma OthersStep(b: Block, bs: seq<Block>, managed: string -> bool)
    ensures Others([b] + bs, managed)
         == (if b.key.Some? && managed(b.key.value) then [] else [b]) + Others(bs, managed)
    ensures Others([], managed) == []
  {
    assert ([b] + bs)[1..] == bs;
  }

  lemma {:induction false} OthersConcat(a: seq<Block>, b: seq<Block>, managed: string -> bool)
    ensures Others(a + b, managed) == Others(a, managed) + Others(b, managed)
  {
    hide *;
    OthersStep(Block(None, ""), [], managed);
    if a == [] {
      assert a + b == b;
    } else {
      OthersConcat(a[1..], b, managed);
      OthersStep(a[0], a[1..], managed);
      OthersStep(a[0], a[1..] + b, managed);
      assert a == [a[0]] + a[1..] && a + b == [a[0]] + (a[1..] + b);
    }
  }

  lemma {:induction false} OthersReplaced(bs: seq<Block>, b: Block, managed: string -> bool)
    requires b.key.Some? && managed(b.key.value)
    ensures Others(Replaced(bs, b), managed) == Others(bs, managed)
  {
    if bs != [] {
      OthersReplaced(bs[1..], b, managed);
      assert Replaced(bs, b)[1..] == Replaced(bs[1..], b);
    }
  }

  lemma OthersOfOne(b: Block, managed: string -> bool)
    requires b.key.Some? && managed(b.key.value)
    ensures Others([b], managed) == []
  {
    assert [b][1..] == [];
  }

  lemma OthersUpserted(bs: seq<Block>, b: Block, managed: string -> bool)
    requires b.key.Some? && managed(b.key.value)
    ensures Others(Upserted(bs, b), managed) == Others(bs, managed)
  {
    hide FirstWith, Replaced, UiIndex, Others;
    OthersReplaced(bs, b, managed);
    OthersOfOne(b, managed);
    var ui := UiIndex(bs);
    if ui.Some? {
      var i := ui.value;
      OthersConcat(bs[..i] + [b], bs[i..], managed);
      OthersConcat(bs[..i], [b], managed);
      OthersConcat(bs[..i], bs[i..], managed);
      assert bs[..i] + bs[i..] == bs;
    }
    OthersConcat(bs, [b], managed);
  }

  lemma {:induction false} OthersWithout(bs: seq<Block>, key: string, managed: string -> bool)
    requires managed(key)
    ensures Others(Without(bs, key), managed) == Others(bs, managed)
  {
    if bs != [] {
      var rest := Without(bs[1..], key);
      OthersWithout(bs[1..], key, managed);
      assert [] + rest == rest && ([bs[0]] + rest)[1..] == rest;
    }
  }
}
