/** The plain append of a block: when it puts the new header on a line of its own, what it
    does behind a blank, and where a new block goes at all. */
module TomlAppend {
  import opened Options
  import opened Text
  import opened TomlBlocks
  import opened TomlSync
  import opened TomlEdits

  /** Some header line of the text carries the key. */
  predicate Heads(line: string, key: string) {
    IsHeader(line) && KeyOfHeader(line) == Some(key)
  }

  predicate HasHeader(ls: seq<string>, key: string) {
    exists k :: 0 <= k < |ls| && Heads(ls[k], key)
  }

  lemma {:induction false} GroupKeys(pending: Option<string>, text: string, ls: seq<string>, key: string)
    requires (forall k :: 0 <= k < |ls| ==> ls[k] != "") && (text == "" ==> pending == None)
    ensures FirstWith(Group(pending, text, ls), key).Some?
       <==> (text != "" && pending == Some(key)) || HasHeader(ls, key)
    decreases |ls|
  {
    hide IsHeader, KeyOfHeader, Group;
    PendingIs(pending, text);
    GroupNone(pending, text);
    if ls != [] {
      var l, rest := ls[0], ls[1..];
      assert ls[0..] == ls;
      GroupStep(pending, text, ls, 0);
      HasHeaderCons(ls, key);
      if IsHeader(l) {
        var bs := Group(KeyOfHeader(l), l, rest);
        GroupKeys(KeyOfHeader(l), l, rest, key);
        FirstWithConcat(Pending(pending, text), bs, key);
        if text != "" { FirstOfOne(Block(pending, text), key); }
      } else {
        GroupKeys(pending, text + l, rest, key);
      }
    } else if text != "" {
      FirstOfOne(Block(pending, text), key);
    }
  }

  lemma HasHeaderCons(ls: seq<string>, key: string)
    requires ls != []
    ensures HasHeader(ls, key) <==> Heads(ls[0], key) || HasHeader(ls[1..], key)
  {
    hide Heads;
    if k :| 0 <= k < |ls| && Heads(ls[k], key) && k > 0 {
      assert Heads(ls[1..][k - 1], key);
    }
    if k :| 0 <= k < |ls[1..]| && Heads(ls[1..][k], key) {
      assert Heads(ls[k + 1], key);
    }
  }

  lemma HasHeaderConcat(a: seq<string>, b: seq<string>, key: string)
    ensures HasHeader(a + b, key) <==> HasHeader(a, key) || HasHeader(b, key)
  {
    hide Heads;
    var all := a + b;
    if k :| 0 <= k < |a| && Heads(a[k], key) { assert Heads(all[k], key); }
    if k :| 0 <= k < |b| && Heads(b[k], key) { assert Heads(all[|a| + k], key); }
    if k :| 0 <= k < |all| && Heads(all[k], key) {
      if k >= |a| { assert Heads(b[k - |a|], key); } else { assert Heads(a[k], key); }
    }
  }

  /** A key is present exactly when some line of the text heads it. */
  lemma KeyIsHeaded(text: string, key: string)
    ensures HasKey(text, key) <==> HasHeader(Lines(text), key)
  {
    hide Group, Lines, FirstWith, HasHeader;
    forall k | 0 <= k < |Lines(text)| ensures Lines(text)[k] != "" { LineNonempty(text, k); }
    GroupKeys(None, "", Lines(text), key);
  }

  function Brackets(s: string): nat {
    if s == "" then 0 else (if s[0] == '[' then 1 else 0) + Brackets(s[1..])
  }

  lemma {:induction false} BracketsConcat(a: string, b: string)
    ensures Brackets(a + b) == Brackets(a) + Brackets(b)
  {
    if a == "" {
      assert a + b == b;
    } else {
      assert (a + b)[1..] == a[1..] + b;
      BracketsConcat(a[1..], b);
    }
  }

  lemma {:induction false} NoBrackets(s: string)
    requires forall k :: 0 <= k < |s| ==> s[k] != '['
    ensures Brackets(s) == 0
  {
    if s != "" {
      NoBrackets(s[1..]);
    }
  }

  lemma {:induction false} SomeBracket(s: string, i: nat)
    requires i < |s| && s[i] == '['
    ensures Brackets(s) >= 1
  {
    if i > 0 {
      SomeBracket(s[1..], i - 1);
    }
  }

  lemma BracketsStrip(s: string)
    ensures Brackets(Strip(s)) == Brackets(s)
  {
    hide TrimBy, Brackets;
    var a, b := TrimParts(s, IsSpace);
    assert s == s[..a] + s[a..b] + s[b..];
    BracketsConcat(s[..a] + s[a..b], s[b..]);
    BracketsConcat(s[..a], s[a..b]);
    NoBrackets(s[..a]);
    NoBrackets(s[b..]);
  }

  lemma BracketsUnquoted(y: string)
    requires y != ""
    ensures Brackets(Unquoted(y)) == Brackets(y)
  {
    var y' := if y[0] == '"' && |y| > 1 then y[1..] else y;
    var n := |y'| - 1;
    assert y'[n] == '"' ==> y' == y'[..n] + "\"";
    BracketsConcat(y'[..n], "\"");
    NoBrackets("\"");
  }

  /** A header has one bracket more than the key it is read as. */
  lemma HeaderBrackets(line: string, key: string)
    requires Heads(line, key)
    ensures Brackets(line) == 1 + Brackets(key) && Strip(line) != "" && Strip(line)[0] == '['
  {
    hide *;
    var s := Strip(line);
    var y := HeaderParts(line, key);
    BracketsStrip(line);
    BracketsConcat(MODEL_OPEN + y, "]");
    BracketsConcat(MODEL_OPEN, y);
    OneBracket();
    BracketsUnquoted(y);
    BracketsStrip(Unquoted(y));
  }

  lemma HeaderParts(line: string, key: string) returns (y: string)
    requires Heads(line, key)
    ensures y != "" && Strip(line) == MODEL_OPEN + y + "]" && key == Strip(Unquoted(y))
    ensures Strip(line) != "" && Strip(line)[0] == '['
  {
    hide Strip, Unquoted;
    var s := Strip(line);
    y := s[|MODEL_OPEN|..|s| - 1];
    assert s[0..|MODEL_OPEN|] == s[..|MODEL_OPEN|];
    hide MODEL_OPEN;
    assert s == s[..|MODEL_OPEN|] + y + [s[|s| - 1]];
  }

  lemma OneBracket()
    ensures Brackets(MODEL_OPEN) == 1 && Brackets("]") == 0
  {
    NoBrackets("]");
    NoBrackets("model.");
    assert MODEL_OPEN[1..] == "model.";
  }

  /** A header pushed behind other text is read as its key only when that text is blank. */
  lemma PushedHeader(partial: string, key: string)
    requires key != "" && TrimmedBy(key, IsSpace) && forall k :: 0 <= k < |key| ==> key[k] != ']'
    ensures var h := HEADER_LEAD + key + HEADER_TAIL + "\n";
            Heads(partial + h, key) <==> Strip(partial) == ""
  {
    var h := HEADER_LEAD + key + HEADER_TAIL + "\n";
    HeaderKey(key);
    hide TrimBy, KeyIn, Brackets, HEADER_LEAD, HEADER_TAIL, IsHeader, KeyOfHeader;
    var a, b := TrimParts(partial, IsSpace);
    if a == b {
      BlankBefore(partial, h);
      SameStrip(h, partial + h, key);
    } else if Heads(partial + h, key) {
      BracketsConcat(partial, h);
      HeaderBrackets(h, key);
      HeaderBrackets(partial + h, key);
      FirstVisible(partial, h, a);
      SomeBracket(partial, a);
    }
  }

  lemma BlankBefore(blank: string, h: string)
    requires forall k :: 0 <= k < |blank| ==> IsSpace(blank[k])
    ensures Strip(blank + h) == Strip(h)
  {
    hide TrimBy;
    var a, b := TrimParts(h, IsSpace);
    TrimIs(blank + h[..a], h[a..b], h[b..], IsSpace);
    assert blank + h == blank + h[..a] + h[a..b] + h[b..];
  }

  lemma SameStrip(l: string, l': string, key: string)
    requires Strip(l) == Strip(l')
    ensures Heads(l, key) <==> Heads(l', key)
  {
    hide Strip;
  }

  lemma FirstVisible(partial: string, h: string, a: nat)
    requires a < |partial| && !IsSpace(partial[a]) && forall k :: 0 <= k < a ==> IsSpace(partial[k])
    ensures Strip(partial + h) != "" && Strip(partial + h)[0] == partial[a]
  {
    hide TrimBy;
    var s := partial + h;
    assert s[a] == partial[a];
    var i, j := TrimParts(s, IsSpace);
    assert forall k :: 0 <= k < a ==> IsSpace(s[k]);
  }

  /** What stands behind the last newline. */
  function Hanging(text: string): (p: string)
    ensures |p| <= |text| && text == text[..|text| - |p|] + p
    ensures NoNewline(p) && Closed(text[..|text| - |p|])
  {
    if text == "" || text[|text| - 1] == '\n' then ""
    else Hanging(text[..|text| - 1]) + [text[|text| - 1]]
  }

  /** The text without it. */
  function EndedPart(text: string): (r: string)
    ensures Closed(r) && text == r + Hanging(text)
  {
    text[..|text| - |Hanging(text)|]
  }

  lemma ClosedIff(text: string)
    ensures Closed(text) <==> Hanging(text) == ""
  {
  }

  lemma PushedLines(ended: string, partial: string, h: string, rest: string)
    requires Closed(ended) && NoNewline(partial) && IsLine(h)
    ensures Lines(ended + partial + (h + rest)) == Lines(ended) + [partial + h] + Lines(rest)
  {
    hide Lines;
    LinesConcat(ended, partial + (h + rest));
    assert ended + partial + (h + rest) == ended + (partial + (h + rest));
    var l := partial + h;
    assert IsLine(l) by {
      assert l[|l| - 1] == h[|h| - 1];
      assert l[..|l| - 1] == partial + h[..|h| - 1];
    }
    LinesConcat(l, rest);
    assert partial + (h + rest) == l + rest;
    LinesOne(l);
  }

  /** The plain append puts the new header on a line of its own exactly when what stands on
      the last, unended line is blank; else the key is not found, and a second run adds the
      block again. */
  lemma AppendFindsKeyIff(cfg: Settings, text: string, m: Model)
    requires GoodModel(cfg, m) && !HasKey(text, KeyFor(m)) && !HasKey(text, "ui")
    ensures var after := Upsert(text, KeyFor(m), MakeConfigBlock(cfg, m));
            && Closed(after)
            && (HasKey(after, KeyFor(m)) <==> Strip(Hanging(text)) == "")
            && (SyncModel(cfg, Outcome(after, []), m).changes == [Added(KeyFor(m))] <==> Strip(Hanging(text)) != "")
  {
    hide *;
    var ended, partial := EndedPart(text), Hanging(text);
    AddsIff(cfg, Upsert(text, KeyFor(m), MakeConfigBlock(cfg, m)), m);
    var key, block, ls := KeyFor(m), MakeConfigBlock(cfg, m), ConfigLines(cfg, m);
    ConfigBlockWritable(cfg, m);
    AppendIs(text, key, block);
    ConfigLinesGood(cfg, m);
    ConfigIs(cfg, m);
    GoodParts(cfg, m);
    var h, rest := ls[0], ls[1..];
    assert ls == [h] + rest;
    ConcatAppend([h], rest);
    ConcatOne(h);
    PushedLines(ended, partial, h, Concat(rest));
    LinesOfConcat(rest);
    KeyIsHeaded(text, key);
    KeyIsHeaded(text + block, key);
    EndedText(ended);
    LinesConcat(ended, partial);
    AppendCloses(text, block);
    HasHeaderConcat(Lines(ended), Lines(partial), key);
    HasHeaderConcat(Lines(ended) + [partial + h], rest, key);
    HasHeaderConcat(Lines(ended), [partial + h], key);
    NoneHead(rest, key);
    OneHead(partial + h, key);
    ConfigHeader(cfg, m);
    PushedHeader(partial, key);
  }

  lemma AddsIff(cfg: Settings, text: string, m: Model)
    ensures SyncModel(cfg, Outcome(text, []), m).changes == [Added(KeyFor(m))] <==> !HasKey(text, KeyFor(m))
  {
    hide HasKey, BlockEqual, Upsert, MakeConfigBlock, KeyFor;
    var none: seq<Change> := [];
    assert none + [Added(KeyFor(m))] == [Added(KeyFor(m))];
    assert (none + [Updated(KeyFor(m))])[0] != [Added(KeyFor(m))][0];
  }

  lemma AppendIs(text: string, key: string, block: string)
    requires !HasKey(text, key) && !HasKey(text, "ui") && WithNewline(block) == block
    ensures Upsert(text, key, block) == text + block
  {
    hide Split, UiIndex, FirstWith;
    UiIsFirst(Split(text));
    var b := Block(Some(key), block);
    SplitIsProper(text);
    JoinAppend(Split(text), [b]);
    assert [b][1..] == [] && block + "" == block;
  }

  lemma AppendCloses(text: string, block: string)
    ensures WithNewline(block) == block ==> Closed(text + block)
  {
    if WithNewline(block) == block { EndsAppended(text, block); }
  }

  lemma NoneHead(ls: seq<string>, key: string)
    requires forall k :: 0 <= k < |ls| ==> !IsHeader(ls[k])
    ensures !HasHeader(ls, key)
  {
    hide IsHeader, KeyOfHeader;
  }

  lemma OneHead(l: string, key: string)
    ensures HasHeader([l], key) <==> Heads(l, key)
  {
    hide Heads;
    if Heads(l, key) { assert Heads([l][0], key); }
  }

  lemma ConfigHeader(cfg: Settings, m: Model)
    ensures ConfigLines(cfg, m)[0] == HEADER_LEAD + KeyFor(m) + HEADER_TAIL + "\n"
  {
    hide HEADER_LEAD, HEADER_TAIL;
  }

  // ---- appending behind a blank line ----

  /** The same block but for outer blanks. */
  predicate Alike(a: Option<Block>, b: Option<Block>) {
    a == b || (a.Some? && b.Some? && Strip(a.value.text) == Strip(b.value.text))
  }

  lemma BlankBehind(s: string, blank: string)
    requires forall k :: 0 <= k < |blank| ==> IsSpace(blank[k])
    ensures Strip(s + blank) == Strip(s)
  {
    hide TrimBy;
    var a, b := TrimParts(s, IsSpace);
    TrimIs(s[..a], s[a..b], s[b..] + blank, IsSpace);
    assert s + blank == s[..a] + s[a..b] + (s[b..] + blank);
  }

  lemma StripBlank(p: string)
    requires Strip(p) == ""
    ensures forall k :: 0 <= k < |p| ==> IsSpace(p[k])
  {
    hide TrimBy;
    var a, b := TrimParts(p, IsSpace);
  }

  lemma {:induction false} HangingConcat(a: string, b: string)
    requires Closed(a)
    ensures Hanging(a + b) == Hanging(b)
    decreases |b|
  {
    if b == "" {
      assert a + b == a;
    } else {
      assert (a + b)[|a + b| - 1] == b[|b| - 1];
      assert (a + b)[..|a + b| - 1] == a + b[..|b| - 1];
      if b[|b| - 1] != '\n' { HangingConcat(a, b[..|b| - 1]); }
    }
  }

  /** A text that hangs: the blocks before the last, and what hangs is the end of the last. */
  lemma LastHangs(text: string) returns (front: seq<Block>, last: Block)
    requires !Closed(text)
    ensures Split(text) == front + [last] && Tidy(front + [last])
    ensures Closed(Join(front)) && Hanging(last.text) == Hanging(text)
  {
    hide Split, Join, Hanging, Headed, Preamble, EndsLine;
    SplitIsTidy(text);
    var bs := Split(text);
    assert bs != [];
    front, last := bs[..|bs| - 1], bs[|bs| - 1];
    assert bs == front + [last];
    JoinAppend(front, [last]);
    OneJoined(last);
    FrontTidy(front, last);
    TidyJoin(front);
    HangingConcat(Join(front), last.text);
  }

  lemma FrontTidy(front: seq<Block>, last: Block)
    requires Tidy(front + [last])
    ensures Tidy(front) && Ended(front)
  {
    hide Headed, Preamble, EndsLine;
    var bs := front + [last];
    assert forall k :: 0 <= k < |front| ==> bs[k] == front[k];
  }

  /** A blank line without its newline moves from the end of one block to the start of the next. */
  lemma BlankMoves(front: seq<Block>, last: Block, b: Block)
    requires Tidy(front + [last]) && Writable(b) && Strip(Hanging(last.text)) == "" && !Closed(last.text)
    ensures var p := Hanging(last.text);
            Tidy(front + Pending(last.key, EndedPart(last.text)) + [Block(b.key, p + b.text)])
    ensures EndedPart(last.text) == "" ==> last.key == None
  {
    var p, t := Hanging(last.text), EndedPart(last.text);
    var b' := Block(b.key, p + b.text);
    hide *;
    ClosedIff(last.text);
    PushedBlock(p, b);
    ShortenedBlock(last.key, t, p);
    PendingIs(last.key, t);
    TidySnoc(front, last);
    PreambleKey(last);
    if t == "" {
      assert front + [] + [b'] == front + [b'];
      TidySnoc(front, b');
    } else {
      var short := Block(last.key, t);
      TidySnoc(front, short);
      EndedIs(front, short);
      TidySnoc(front + [short], b');
      EndedText(t);
    }
  }

  lemma PreambleKey(b: Block)
    ensures Preamble(b) ==> b.key == None
  {
  }

  lemma EndedText(t: string)
    ensures Closed(t) && t != "" ==> EndsLine(t)
  {
  }

  lemma EndedIs(front: seq<Block>, b: Block)
    ensures Ended(front + [b]) <==> EndsLine(b.text)
  {
  }

  lemma TidySnoc(front: seq<Block>, b: Block)
    ensures Tidy(front + [b]) <==> Tidy(front) && Ended(front) && (Headed(b) || (front == [] && Preamble(b)))
  {
    hide Headed, Preamble, EndsLine;
    var bs := front + [b];
    assert forall k :: 0 <= k < |front| ==> bs[k] == front[k];
    if Tidy(bs) { assert Headed(bs[|front|]) || (|front| == 0 && Preamble(bs[0])); }
  }

  lemma PushedBlock(p: string, b: Block)
    requires Strip(p) == "" && NoNewline(p) && Writable(b)
    ensures Headed(Block(b.key, p + b.text))
  {
    hide Lines, IsHeader, KeyOfHeader, Strip, NoHeaders;
    WritableParts(b);
    HeadedParts(b);
    var ls := Lines(b.text);
    var h, rest := ls[0], ls[1..];
    FirstLineIs(b.text);
    StripBlank(p);
    BlankBefore(p, h);
    LinesConcat(h, Concat(rest));
    LinesOne(h);
    PushedLines("", p, h, Concat(rest));
    LinesNone();
    assert "" + p + (h + Concat(rest)) == p + b.text;
    assert ls == [h] + Lines(Concat(rest));
    SameHeader(h, p + h);
    assert ([] + [p + h] + rest)[1..] == rest && [p + h] + rest == [] + [p + h] + rest;
    HeadedFrom(Block(b.key, p + b.text), [p + h] + rest);
  }

  lemma WritableParts(b: Block)
    requires Writable(b)
    ensures b.key.Some? && Headed(b) && EndsLine(b.text)
  {
  }

  lemma FirstLineIs(s: string)
    requires EndsLine(s)
    ensures Lines(s) != [] && IsLine(Lines(s)[0])
  {
    hide IsLine;
    FirstIsLine(s);
  }

  lemma SameHeader(l: string, l': string)
    requires Strip(l) == Strip(l')
    ensures IsHeader(l) == IsHeader(l') && KeyOfHeader(l) == KeyOfHeader(l')
  {
    hide Strip;
  }

  /** A block that loses a blank line stays what it was; a blank line alone is no headed block. */
  lemma ShortenedBlock(key: Option<string>, t: string, p: string)
    requires Closed(t) && p != "" && NoNewline(p) && Strip(p) == ""
    ensures Headed(Block(key, t + p)) ==> t != "" && Headed(Block(key, t))
    ensures Preamble(Block(key, t + p)) && t != "" ==> Preamble(Block(key, t))
  {
    hide Lines, KeyOfHeader, Strip;
    LinesConcat(t, p);
    assert NoNewline(p[..|p| - 1]);
    WholeLine(p);
    LinesNone();
    var ls := Lines(t);
    var all := ls + [p];
    assert !IsHeader(p);
    assert forall k :: 0 <= k < |ls| ==> all[k] == ls[k];
    assert t == "" ==> all[0] == p;
    if ls != [] {
      assert forall k :: 0 <= k < |ls| - 1 ==> ls[1..][k] == all[1..][k];
    }
  }

  lemma MovedJoin(front: seq<Block>, last: Block, b: Block)
    ensures Join(front + Pending(last.key, EndedPart(last.text)) + [Block(b.key, Hanging(last.text) + b.text)])
         == Join(front + [last]) + b.text
  {
    hide *;
    var p, t := Hanging(last.text), EndedPart(last.text);
    var b' := Block(b.key, p + b.text);
    var moved := Pending(last.key, t);
    JoinAppend(front + moved, [b']);
    JoinAppend(front, moved);
    JoinAppend(front, [last]);
    OneJoined(b');
    OneJoined(last);
    PendingJoins(last.key, t);
    assert Join(front) + t + (p + b.text) == Join(front) + (t + p) + b.text;
  }

  lemma FirstMoved(last: Block, t: string, k: string)
    requires Strip(t) == Strip(last.text) && (t == "" ==> last.key == None)
    ensures Alike(FirstWith(Pending(last.key, t), k), FirstWith([last], k))
    ensures FirstWith([last], k) == None ==> FirstWith(Pending(last.key, t), k) == None
  {
    hide Strip;
    FirstOfOne(last, k);
    FirstOfOne(Block(last.key, t), k);
  }

  /** Behind a blank line the new block is found under its key, and every other key leads to
      the block it led to, but for that blank. */
  lemma BlankAppend(text: string, key: string, block: string)
    requires Writable(Block(Some(key), block)) && WithNewline(block) == block
    requires !Room(text, key) && Strip(Hanging(text)) == ""
    ensures var after := Split(Upsert(text, key, block));
            forall k :: Alike(FirstWith(after, k),
                              if k == key then Some(Block(Some(key), block)) else FirstWith(Split(text), k))
  {
    var b, p := Block(Some(key), block), Hanging(text);
    hide Split, Join, Upsert, Hanging, EndedPart, Headed, Preamble, EndsLine, FirstWith, Tidy, WithNewline;
    hide Strip, Closed, Writable, Pending;
    var front, last := LastHangs(text);
    var t := EndedPart(last.text);
    var moved := Pending(last.key, t);
    var b' := Block(Some(key), p + block);
    ClosedIff(text);
    ClosedIff(last.text);
    BlankMoves(front, last, b);
    TidyJoin(front + moved + [b']);
    MovedJoin(front, last, b);
    SplitIsTidy(text);
    AppendIs(text, key, block);
    StripBlank(p);
    BlankBefore(p, block);
    BlankBehind(t, p);
    forall k
      ensures Alike(FirstWith(front + moved + [b'], k), if k == key then Some(b) else FirstWith(front + [last], k))
    {
      FirstWithConcat(front + moved, [b'], k);
      FirstWithConcat(front, moved, k);
      FirstWithConcat(front, [last], k);
      FirstOfOne(b', k);
      FirstOfOne(last, k);
      FirstMoved(last, t, k);
    }
  }

  // ---- which headers name a key at all ----

  lemma ProperHeaded(bs: seq<Block>, i: nat)
    requires Proper(bs) && i < |bs| && bs[i].key.Some?
    ensures Headed(bs[i])
  {
    hide Headed;
    assert i > 0 ==> bs[i] == bs[1..][i - 1];
  }

  /** Only a header that starts with `[model.` names a key: a plain `[ui]` block is never the
      one that new blocks are inserted before. */
  lemma KeyedBlockIsModel(text: string, i: nat)
    requires i < |Split(text)| && Split(text)[i].key.Some?
    ensures var ls := Lines(Split(text)[i].text);
            ls != [] && At(Strip(ls[0]), 0, MODEL_OPEN)
  {
    hide *;
    SplitIsProper(text);
    ProperHeaded(Split(text), i);
    HeadedParts(Split(text)[i]);
    ModelHeader(Lines(Split(text)[i].text)[0]);
  }

  lemma ModelHeader(line: string)
    requires KeyOfHeader(line).Some?
    ensures At(Strip(line), 0, MODEL_OPEN)
  {
    hide Strip, Unquoted;
  }

  // ---- where a new block goes ----

  /** A plain `[ui]` header names no key. */
  lemma PlainUiHasNoKey(line: string)
    requires Strip(line) == "[ui]"
    ensures KeyOfHeader(line) == None && IsHeader(line)
  {
    hide Strip;
  }

  lemma InsertedAt(bs: seq<Block>, b: Block)
    requires b.key.Some? && FirstWith(bs, b.key.value).None?
    ensures var ui := UiIndex(bs);
            && (ui.Some? ==> Upserted(bs, b) == bs[..ui.value] + [b] + bs[ui.value..])
            && (ui.None? ==> Upserted(bs, b) == bs + [b])
  {
    hide UiIndex, FirstWith;
  }

  lemma NotAtEnd(bs: seq<Block>, b: Block, i: nat)
    requires i < |bs| && bs[i] != b
    ensures bs[..i] + [b] + bs[i..] != bs + [b]
  {
    assert (bs[..i] + [b] + bs[i..])[i] == b && (bs + [b])[i] == bs[i];
  }

  /** A new key goes before a block exactly when some header of the text is read as the key
      `ui`; then it goes before the last such block, and else behind the whole text. */
  lemma InsertedBeforeUiIff(text: string, key: string, block: string)
    requires !HasKey(text, key)
    ensures var bs, b := Split(text), Block(Some(key), WithNewline(block));
            && (Upserted(bs, b) != bs + [b] <==> HasHeader(Lines(text), "ui"))
            && (HasHeader(Lines(text), "ui") ==>
                  exists i :: 0 <= i < |bs| && bs[i].key == Some("ui")
                              && (forall k :: i < k < |bs| ==> bs[k].key != Some("ui"))
                              && Upsert(text, key, block) == Join(bs[..i]) + WithNewline(block) + Join(bs[i..]))
            && (!HasHeader(Lines(text), "ui") ==> Upsert(text, key, block) == text + WithNewline(block))
  {
    var bs, b := Split(text), Block(Some(key), WithNewline(block));
    KeyIsHeaded(text, "ui");
    hide Split, UiIndex, FirstWith, Lines, HasHeader, Upserted, WithNewline, Join;
    UiIsFirst(bs);
    InsertedAt(bs, b);
    SplitIsProper(text);
    OneJoined(b);
    var ui := UiIndex(bs);
    if ui.Some? {
      var i := ui.value;
      assert bs[i] in bs;
      NotAtEnd(bs, b, i);
      JoinAppend(bs[..i] + [b], bs[i..]);
      JoinAppend(bs[..i], [b]);
    } else {
      JoinAppend(bs, [b]);
    }
  }

  lemma OneJoined(b: Block)
    ensures Join([b]) == b.text
  {
    assert [b][1..] == [] && b.text + "" == b.text;
  }

  const PLAIN_UI := "[ui]\n"

  /** A text that holds a `[ui]` table: every new block is appended behind it. */
  lemma PlainUiIsPassedOver(key: string, block: string)
    ensures Split(PLAIN_UI) == [Block(None, PLAIN_UI)]
    ensures Upsert(PLAIN_UI, key, block) == PLAIN_UI + WithNewline(block)
  {
    hide *;
    PlainUiSplits(key);
    InsertedBeforeUiIff(PLAIN_UI, key, block);
  }

  lemma PlainUiSplits(key: string)
    ensures Split(PLAIN_UI) == [Block(None, PLAIN_UI)]
    ensures !HasHeader(Lines(PLAIN_UI), "ui") && !HasKey(PLAIN_UI, key)
  {
    hide *;
    var b := Block(None, PLAIN_UI);
    PlainUiLine();
    PlainUiHasNoKey(PLAIN_UI);
    OneJoined(b);
    assert [PLAIN_UI][1..] == [];
    NoHeadersNone();
    HeadedFrom(b, [PLAIN_UI]);
    ChainNone();
    ChainCons(b, []);
    ChainIsProper([b] + []);
    assert [b] + [] == [b];
    SplitJoin([b]);
    OneHead(PLAIN_UI, "ui");
    NoKeyNoHead(PLAIN_UI, "ui");
    FirstOfOne(b, key);
    HasKeyIs(PLAIN_UI, key);
  }

  lemma NoHeadersNone()
    ensures NoHeaders([])
  {
  }

  lemma NoKeyNoHead(line: string, key: string)
    requires KeyOfHeader(line) == None
    ensures !Heads(line, key)
  {
  }

  lemma HasKeyIs(text: string, key: string)
    ensures HasKey(text, key) <==> FirstWith(Split(text), key).Some?
  {
  }

  lemma PlainUiLine()
    ensures Lines(PLAIN_UI) == [PLAIN_UI] && Strip(PLAIN_UI) == "[ui]"
  {
    LinesOne(PLAIN_UI);
    assert PLAIN_UI == "" + "[ui]" + "\n";
    TrimIs("", "[ui]", "\n", IsSpace);
  }
}
