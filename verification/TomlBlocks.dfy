/** `split_blocks`: a TOML text cut at its header lines, and why joining the
    blocks and splitting again gives the same blocks. */
module TomlBlocks {
  import opened Options
  import opened Text

  // ---- lines ----

  /** `str.isspace`, one character at a time. */
  predicate IsSpace(c: char) {
    IsWhitespace(c) || 0x1C <= c as int <= 0x1F
  }

  function Strip(s: string): string {
    TrimBy(s, IsSpace)
  }

  predicate EndsLine(s: string) {
    s != "" && s[|s| - 1] == '\n'
  }

  predicate NoNewline(s: string) {
    forall k :: 0 <= k < |s| ==> s[k] != '\n'
  }

  /** Length of the first line, its newline included. */
  function LineLength(s: string): (n: nat)
    ensures n <= |s| && (s != "" ==> n > 0)
    ensures n > 0 ==> NoNewline(s[..n - 1])
    ensures n < |s| ==> s[n - 1] == '\n'
  {
    if s == "" then 0
    else if s[0] == '\n' then 1
    else
      var m := LineLength(s[1..]);
      assert m > 0 ==> forall k :: 1 <= k < m ==> s[k] == s[1..][..m - 1][k - 1];
      m + 1
  }

  /** `splitlines(keepends=True)` for texts whose only line separator is the newline. */
  function Lines(s: string): seq<string>
    decreases |s|
  {
    if s == "" then [] else [s[..LineLength(s)]] + Lines(s[LineLength(s)..])
  }

  function Concat(ss: seq<string>): string {
    if ss == [] then "" else ss[0] + Concat(ss[1..])
  }

  /** A line with its newline. */
  predicate IsLine(l: string) {
    EndsLine(l) && NoNewline(l[..|l| - 1])
  }

  lemma FirstLineOf(l: string, rest: string)
    requires IsLine(l)
    ensures LineLength(l + rest) == |l|
    decreases |l|
  {
    var s := l + rest;
    var n := LineLength(s);
    assert forall k :: 0 <= k < |l| - 1 ==> s[k] == l[..|l| - 1][k];
    assert s[|l| - 1] == '\n';
    assert forall k :: 0 <= k < n - 1 ==> s[k] == s[..n - 1][k];
  }

  lemma {:induction false} LinesConcat(a: string, b: string)
    requires a == "" || EndsLine(a)
    ensures Lines(a + b) == Lines(a) + Lines(b)
    decreases |a|
  {
    hide *;
    if a == "" {
      assert a + b == b;
      LinesNone();
    } else {
      var n := LineLength(a);
      var l, rest := a[..n], a[n..];
      FirstIsLine(a);
      assert a + b == l + (rest + b);
      FirstLineOf(l, rest + b);
      LinesUnfold(a);
      LinesUnfold(a + b);
      assert (l + (rest + b))[n..] == rest + b && (l + (rest + b))[..n] == l;
      LinesConcat(rest, b);
    }
  }

  lemma FirstIsLine(a: string)
    requires EndsLine(a)
    ensures var n := LineLength(a); n > 0 && IsLine(a[..n]) && (a[n..] == "" || EndsLine(a[n..]))
  {
    var n := LineLength(a);
    var l := a[..n];
    assert l[n - 1] == a[n - 1];
    assert l[..n - 1] == a[..n - 1];
  }

  lemma LinesOne(l: string)
    requires IsLine(l)
    ensures Lines(l) == [l]
  {
    FirstLineOf(l, "");
    assert l + "" == l && l[|l|..] == "";
  }

  lemma {:induction false} LinesOfConcat(ls: seq<string>)
    requires forall k :: 0 <= k < |ls| ==> IsLine(ls[k])
    ensures Lines(Concat(ls)) == ls
  {
    if ls != [] {
      LinesOfConcat(ls[1..]);
      LinesConcat(ls[0], Concat(ls[1..]));
      LinesOne(ls[0]);
      assert ls == [ls[0]] + ls[1..];
    }
  }

  lemma {:induction false} ConcatLines(s: string)
    ensures Concat(Lines(s)) == s
    decreases |s|
  {
    if s != "" {
      ConcatLines(s[LineLength(s)..]);
    }
  }

  lemma {:induction false} ConcatAppend(a: seq<string>, b: seq<string>)
    ensures Concat(a + b) == Concat(a) + Concat(b)
  {
    if a == [] {
      assert a + b == b;
    } else {
      assert (a + b)[1..] == a[1..] + b;
      ConcatAppend(a[1..], b);
    }
  }

  // ---- headers and blocks ----

  predicate IsHeader(line: string) {
    var s := Strip(line);
    s != "" && s[0] == '[' && s[|s| - 1] == ']'
  }

  const MODEL_OPEN := "[model."

  /** The regular expression of `_key_of_header` on a stripped line: quotes are optional,
      and dropped only while a character of the name is left. */
  function KeyIn(s: string): Option<string> {
    if |s| <= |MODEL_OPEN| || !At(s, 0, MODEL_OPEN) || s[|s| - 1] != ']' then None
    else
      var y := s[|MODEL_OPEN|..|s| - 1];
      if y == "" || ']' in y then None else Some(Strip(Unquoted(y)))
  }

  function Unquoted(y: string): (x: string)
    requires y != ""
    ensures x != ""
  {
    var y' := if y[0] == '"' && |y| > 1 then y[1..] else y;
    if y'[|y'| - 1] == '"' && |y'| > 1 then y'[..|y'| - 1] else y'
  }

  function KeyOfHeader(line: string): Option<string> {
    KeyIn(Strip(line))
  }

  datatype Block = Block(key: Option<string>, text: string)

  function Join(bs: seq<Block>): string {
    if bs == [] then "" else bs[0].text + Join(bs[1..])
  }

  function Pending(key: Option<string>, text: string): seq<Block> {
    if text == "" then [] else [Block(key, text)]
  }

  /** The blocks of the lines left, when `text` has been collected under `key`. */
  function Group(key: Option<string>, text: string, lines: seq<string>): seq<Block>
    decreases |lines|
  {
    if lines == [] then Pending(key, text)
    else if IsHeader(lines[0]) then Pending(key, text) + Group(KeyOfHeader(lines[0]), lines[0], lines[1..])
    else Group(key, text + lines[0], lines[1..])
  }

  function Split(text: string): seq<Block> {
    Group(None, "", Lines(text))
  }

  method SplitBlocks(text: string) returns (blocks: seq<Block>)
    ensures blocks == Split(text)
  {
    hide *;
    var lines := Lines(text);
    blocks := [];
    var curKey: Option<string> := None;
    var curLines: seq<string> := [];
    SplitStart(text);
    CollectedText(curLines);
    for i := 0 to |lines|
      invariant blocks + Group(curKey, Concat(curLines), lines[i..]) == Split(text)
      invariant forall k :: 0 <= k < |curLines| ==> curLines[k] != ""
    {
      GroupStep(curKey, Concat(curLines), lines, i);
      LineNonempty(text, i);
      CollectedText(curLines);
      PendingIs(curKey, Concat(curLines));
      var line := lines[i];
      ConcatOne(line);
      if IsHeader(line) {
        if curLines != [] {
          blocks := blocks + [Block(curKey, Concat(curLines))];
        }
        curKey := KeyOfHeader(line);
        curLines := [line];
      } else {
        ConcatAppend(curLines, [line]);
        curLines := curLines + [line];
      }
    }
    CollectedText(curLines);
    GroupNone(curKey, Concat(curLines));
    PendingIs(curKey, Concat(curLines));
    if curLines != [] {
      blocks := blocks + [Block(curKey, Concat(curLines))];
    }
  }

  lemma SplitStart(text: string)
    ensures Split(text) == [] + Group(None, Concat([]), Lines(text)[0..])
  {
    hide Group, Lines;
    assert Lines(text)[0..] == Lines(text);
  }

  lemma GroupNone(key: Option<string>, text: string)
    ensures forall lines :: lines == [] ==> Group(key, text, lines) == Pending(key, text)
  {
  }

  lemma GroupStep(key: Option<string>, text: string, lines: seq<string>, i: nat)
    requires i < |lines|
    ensures Group(key, text, lines[i..])
         == if IsHeader(lines[i]) then Pending(key, text) + Group(KeyOfHeader(lines[i]), lines[i], lines[i + 1..])
            else Group(key, text + lines[i], lines[i + 1..])
  {
    hide IsHeader, KeyOfHeader;
    assert lines[i..][1..] == lines[i + 1..];
  }

  lemma PendingIs(key: Option<string>, text: string)
    ensures Pending(key, text) == if text == "" then [] else [Block(key, text)]
  {
  }

  lemma ConcatOne(l: string)
    ensures Concat([l]) == l
  {
    assert [l][1..] == [];
  }

  lemma CollectedText(ls: seq<string>)
    requires forall k :: 0 <= k < |ls| ==> ls[k] != ""
    ensures Concat(ls) == "" <==> ls == []
  {
  }

  lemma {:induction false} LineNonempty(s: string, i: nat)
    requires i < |Lines(s)|
    ensures Lines(s)[i] != ""
    decreases |s|
  {
    if i > 0 {
      LineNonempty(s[LineLength(s)..], i - 1);
    }
  }

  // ---- splitting and joining are inverse ----

  predicate NoHeaders(ls: seq<string>) {
    forall k :: 0 <= k < |ls| ==> !IsHeader(ls[k])
  }

  /** A block as its own header line names it. */
  predicate Headed(b: Block) {
    var ls := Lines(b.text);
    ls != [] && IsHeader(ls[0]) && b.key == KeyOfHeader(ls[0]) && NoHeaders(ls[1..])
  }

  /** What stands before the first header. */
  predicate Preamble(b: Block) {
    b.text != "" && b.key == None && NoHeaders(Lines(b.text))
  }

  /** Headed blocks, all but the last ending their line. */
  predicate Chain(bs: seq<Block>) {
    (forall k :: 0 <= k < |bs| ==> Headed(bs[k])) && (forall k :: 0 <= k < |bs| - 1 ==> EndsLine(bs[k].text))
  }

  /** What splitting yields: perhaps a preamble, then a chain. */
  predicate Proper(bs: seq<Block>) {
    bs == [] || Chain(bs) || (Preamble(bs[0]) && Chain(bs[1..]) && (|bs| > 1 ==> EndsLine(bs[0].text)))
  }

  lemma {:induction false} GroupBody(key: Option<string>, text: string, body: seq<string>, rest: seq<string>)
    requires NoHeaders(body)
    ensures Group(key, text, body + rest) == Group(key, text + Concat(body), rest)
    decreases |body|
  {
    if body == [] {
      assert body + rest == rest && text + "" == text;
    } else {
      hide IsHeader, KeyOfHeader;
      assert (body + rest)[1..] == body[1..] + rest;
      GroupBody(key, text + body[0], body[1..], rest);
      assert text + body[0] + Concat(body[1..]) == text + (body[0] + Concat(body[1..]));
    }
  }

  /** Grouping stops at the next header. */
  lemma GroupHeaded(key: Option<string>, text: string, b: Block, rest: seq<string>)
    requires Headed(b)
    ensures Group(key, text, Lines(b.text) + rest) == Pending(key, text) + Group(b.key, b.text, rest)
  {
    hide *;
    HeadedParts(b);
    var ls := Lines(b.text);
    var body := ls[1..];
    GroupBody(b.key, ls[0], body, rest);
    GroupHeader(key, text, ls[0], body + rest);
    assert ls + rest == [ls[0]] + (body + rest);
  }

  lemma GroupHeader(key: Option<string>, text: string, h: string, rest: seq<string>)
    requires IsHeader(h)
    ensures Group(key, text, [h] + rest) == Pending(key, text) + Group(KeyOfHeader(h), h, rest)
  {
    hide IsHeader, KeyOfHeader;
    assert ([h] + rest)[1..] == rest;
  }

  lemma HeadedParts(b: Block)
    requires Headed(b)
    ensures var ls := Lines(b.text);
            ls != [] && IsHeader(ls[0]) && b.key == KeyOfHeader(ls[0]) && NoHeaders(ls[1..])
            && ls[0] + Concat(ls[1..]) == b.text
  {
    hide Lines, IsHeader, KeyOfHeader;
    ConcatLines(b.text);
  }

  lemma HeadedText(b: Block)
    ensures Headed(b) ==> b.text != ""
  {
  }

  lemma {:induction false} GroupChain(b: Block, bs: seq<Block>)
    requires b.text != "" && Chain(bs) && (bs != [] ==> EndsLine(b.text))
    ensures Group(b.key, b.text, Lines(Join(bs))) == [b] + bs
    decreases |bs|
  {
    hide Headed, Group, Lines, EndsLine;
    PendingIs(b.key, b.text);
    if bs == [] {
      GroupEnds(b.key, b.text);
    } else {
      var rest := bs[1..];
      JoinCons(bs);
      HeadedText(bs[0]);
      if rest == [] {
        LinesNone();
        assert bs[0].text + "" == bs[0].text;
        assert Lines(Join(bs)) == Lines(bs[0].text) + Lines(Join(rest));
      } else {
        LinesConcat(bs[0].text, Join(rest));
      }
      GroupHeaded(b.key, b.text, bs[0], Lines(Join(rest)));
      GroupChain(bs[0], rest);
      assert bs == [bs[0]] + rest;
    }
  }

  lemma GroupEnds(key: Option<string>, text: string)
    ensures Group(key, text, Lines("")) == Pending(key, text)
  {
  }

  lemma LinesNone()
    ensures Lines("") == [] && Join([]) == ""
  {
  }

  lemma JoinCons(bs: seq<Block>)
    requires bs != []
    ensures Join(bs) == bs[0].text + Join(bs[1..])
  {
  }

  /** Joining proper blocks and splitting again gives them back. */
  lemma SplitJoin(bs: seq<Block>)
    requires Proper(bs)
    ensures Split(Join(bs)) == bs
  {
    hide Headed, Preamble, Group, Lines, EndsLine;
    LinesNone();
    PendingIs(None, "");
    if bs == [] {
      GroupEnds(None, "");
    } else {
      var b, rest := bs[0], bs[1..];
      assert bs == [b] + rest;
      if rest == [] {
        assert b.text + "" == b.text;
        assert Lines(Join(bs)) == Lines(b.text) + Lines(Join(rest));
      } else {
        LinesConcat(b.text, Join(rest));
      }
      HeadedText(b);
      if Chain(bs) {
        GroupHeaded(None, "", b, Lines(Join(rest)));
      } else {
        PreambleGroup(b, Lines(Join(rest)));
      }
      assert b.text != "" by { PreambleText(b); }
      GroupChain(b, rest);
    }
  }

  lemma PreambleText(b: Block)
    ensures Preamble(b) ==> b.text != ""
  {
  }

  lemma PreambleGroup(b: Block, rest: seq<string>)
    requires Preamble(b)
    ensures Group(None, "", Lines(b.text) + rest) == Group(b.key, b.text, rest)
  {
    ConcatLines(b.text);
    GroupBody(None, "", Lines(b.text), rest);
    assert "" + b.text == b.text;
  }

  /** Lines as `Lines` cuts them: whole, and all but the last ended. */
  predicate CutLines(ls: seq<string>) {
    forall k :: 0 <= k < |ls| ==> ls[k] != "" && Lines(ls[k]) == [ls[k]] && (k < |ls| - 1 ==> EndsLine(ls[k]))
  }

  lemma WholeLine(l: string)
    requires l != "" && NoNewline(l[..|l| - 1])
    ensures Lines(l) == [l]
  {
    OneLineLength(l);
    hide *;
    LinesUnfold(l);
    LinesNone();
    assert l[..|l|] == l && l[|l|..] == "";
  }

  lemma OneLineLength(l: string)
    requires l != "" && NoNewline(l[..|l| - 1])
    ensures LineLength(l) == |l|
  {
    var n := LineLength(l);
    assert forall k :: 0 <= k < |l| - 1 ==> l[k] == l[..|l| - 1][k];
  }

  lemma {:induction false} LinesAreCut(s: string)
    ensures CutLines(Lines(s))
    decreases |s|
  {
    if s != "" {
      var n := LineLength(s);
      var l, rest := s[..n], s[n..];
      LinesAreCut(rest);
      WholeLine(l) by { assert l[..n - 1] == s[..n - 1]; }
      hide LineLength;
      assert Lines(s) == [l] + Lines(rest) by { LinesUnfold(s); }
      if n < |s| { assert l[|l| - 1] == s[n - 1]; }
      assert n == |s| ==> rest == "";
      LinesNone();
    }
  }

  lemma LinesUnfold(s: string)
    requires s != ""
    ensures Lines(s) == [s[..LineLength(s)]] + Lines(s[LineLength(s)..])
  {
  }

  lemma CutRest(ls: seq<string>)
    requires CutLines(ls) && ls != []
    ensures CutLines(ls[1..]) && Lines(ls[0]) == [ls[0]] && ls[0] != "" && (ls[1..] != [] ==> EndsLine(ls[0]))
  {
    hide Lines, EndsLine;
    assert forall k :: 0 <= k < |ls| - 1 ==> ls[1..][k] == ls[k + 1];
  }

  lemma {:induction false} GroupJoins(key: Option<string>, text: string, lines: seq<string>)
    ensures Join(Group(key, text, lines)) == text + Concat(lines)
    decreases |lines|
  {
    hide *;
    PendingIs(key, text);
    PendingJoins(key, text);
    if lines == [] {
      GroupNone(key, text);
      ConcatNone();
      assert text + "" == text;
    } else {
      var l, rest := lines[0], lines[1..];
      GroupStep(key, text, lines, 0);
      assert lines[0..] == lines && lines == [l] + rest;
      ConcatAppend([l], rest);
      ConcatOne(l);
      if IsHeader(l) {
        GroupJoins(KeyOfHeader(l), l, rest);
        JoinAppend(Pending(key, text), Group(KeyOfHeader(l), l, rest));
      } else {
        GroupJoins(key, text + l, rest);
        assert text + l + Concat(rest) == text + (l + Concat(rest));
      }
    }
  }

  lemma ConcatNone()
    ensures Concat([]) == ""
  {
  }

  lemma PendingJoins(key: Option<string>, text: string)
    ensures Join(Pending(key, text)) == text
  {
    if text != "" {
      assert [Block(key, text)][1..] == [] && text + "" == text;
    }
  }

  lemma {:induction false} JoinAppend(a: seq<Block>, b: seq<Block>)
    ensures Join(a + b) == Join(a) + Join(b)
  {
    if a == [] {
      assert a + b == b;
    } else {
      assert (a + b)[1..] == a[1..] + b;
      JoinAppend(a[1..], b);
    }
  }

  lemma HeadedFrom(b: Block, ls: seq<string>)
    requires Lines(b.text) == ls && ls != [] && IsHeader(ls[0]) && b.key == KeyOfHeader(ls[0]) && NoHeaders(ls[1..])
    ensures Headed(b)
  {
    hide Lines, IsHeader, KeyOfHeader;
  }

  lemma NoHeadersSnoc(ls: seq<string>, l: string)
    requires NoHeaders(ls) && !IsHeader(l)
    ensures NoHeaders(ls + [l])
  {
    hide IsHeader;
  }

  lemma HeadedGrows(key: Option<string>, text: string, l: string)
    requires Headed(Block(key, text)) && EndsLine(text) && Lines(l) == [l] && !IsHeader(l)
    ensures Headed(Block(key, text + l))
  {
    hide *;
    var ls := Lines(text);
    HeadedParts(Block(key, text));
    LinesConcat(text, l);
    NoHeadersSnoc(ls[1..], l);
    assert (ls + [l])[1..] == ls[1..] + [l];
    HeadedFrom(Block(key, text + l), ls + [l]);
  }

  lemma HeaderAlone(l: string)
    requires Lines(l) == [l] && IsHeader(l)
    ensures Headed(Block(KeyOfHeader(l), l))
  {
    hide Lines, IsHeader, KeyOfHeader;
  }

  lemma PreambleGrows(text: string, l: string)
    requires text == "" || (Preamble(Block(None, text)) && EndsLine(text))
    requires Lines(l) == [l] && !IsHeader(l) && l != ""
    ensures Preamble(Block(None, text + l))
  {
    hide *;
    LinesConcat(text, l);
    PreambleLines(text);
    NoHeadersSnoc(Lines(text), l);
    PreambleFrom(text + l, Lines(text) + [l]);
  }

  lemma PreambleLines(text: string)
    requires text == "" || Preamble(Block(None, text))
    ensures NoHeaders(Lines(text))
  {
    hide IsHeader;
  }

  lemma PreambleFrom(text: string, ls: seq<string>)
    requires text != "" && Lines(text) == ls && NoHeaders(ls)
    ensures Preamble(Block(None, text))
  {
    hide Lines, NoHeaders;
  }

  lemma EndsAppended(text: string, l: string)
    requires EndsLine(l)
    ensures EndsLine(text + l)
  {
    assert (text + l)[|text + l| - 1] == l[|l| - 1];
  }

  lemma ChainCons(b: Block, bs: seq<Block>)
    requires Headed(b) && Chain(bs) && (bs != [] ==> EndsLine(b.text))
    ensures Chain([b] + bs)
  {
    hide Headed, EndsLine;
    var all := [b] + bs;
    assert forall k :: 1 <= k < |all| ==> all[k] == bs[k - 1];
  }

  lemma {:induction false} GroupMakesChain(key: Option<string>, text: string, lines: seq<string>)
    requires CutLines(lines) && Headed(Block(key, text)) && (lines != [] ==> EndsLine(text))
    ensures Chain(Group(key, text, lines))
    decreases |lines|
  {
    hide *;
    var b := Block(key, text);
    HeadedText(b);
    PendingIs(key, text);
    ChainNone();
    if lines == [] {
      GroupNone(key, text);
      ChainCons(b, []);
      assert [b] + [] == [b];
    } else {
      var l, rest := lines[0], lines[1..];
      CutRest(lines);
      GroupStep(key, text, lines, 0);
      assert lines[0..] == lines;
      if IsHeader(l) {
        HeaderAlone(l);
        GroupMakesChain(KeyOfHeader(l), l, rest);
        ChainCons(b, Group(KeyOfHeader(l), l, rest));
      } else {
        HeadedGrows(key, text, l);
        if rest != [] { EndsAppended(text, l); }
        GroupMakesChain(key, text + l, rest);
      }
    }
  }

  lemma ChainNone()
    ensures Chain([]) && Proper([])
  {
  }

  lemma {:induction false} GroupMakesProper(text: string, lines: seq<string>)
    requires CutLines(lines) && (text == "" || (Preamble(Block(None, text)) && (lines != [] ==> EndsLine(text))))
    ensures Proper(Group(None, text, lines))
    decreases |lines|
  {
    hide *;
    PendingIs(None, text);
    ChainNone();
    if lines == [] {
      GroupNone(None, text);
      if text != "" { PreambleFirst(Block(None, text), []); }
    } else {
      var l, rest := lines[0], lines[1..];
      CutRest(lines);
      GroupStep(None, text, lines, 0);
      assert lines[0..] == lines;
      if IsHeader(l) {
        var bs := Group(KeyOfHeader(l), l, rest);
        HeaderAlone(l);
        GroupMakesChain(KeyOfHeader(l), l, rest);
        assert [] + bs == bs;
        if text == "" { ChainIsProper(bs); } else { PreambleFirst(Block(None, text), bs); }
      } else {
        PreambleGrows(text, l);
        if rest != [] { EndsAppended(text, l); }
        GroupMakesProper(text + l, rest);
      }
    }
  }

  lemma ChainIsProper(bs: seq<Block>)
    requires Chain(bs)
    ensures Proper(bs)
  {
  }

  lemma PreambleFirst(b: Block, bs: seq<Block>)
    requires Preamble(b) && Chain(bs) && (bs != [] ==> EndsLine(b.text))
    ensures Proper([b] + bs) && (bs == [] ==> Proper([b]))
  {
    hide Preamble, Chain, EndsLine;
    assert ([b] + bs)[1..] == bs;
    assert bs == [] ==> [b] + bs == [b];
  }

  /** Splitting loses nothing and yields proper blocks. */
  lemma SplitIsProper(text: string)
    ensures Proper(Split(text)) && Join(Split(text)) == text
  {
    hide Group, Lines;
    LinesAreCut(text);
    GroupMakesProper("", Lines(text));
    GroupJoins(None, "", Lines(text));
    ConcatLines(text);
    assert "" + text == text;
  }
}
