/** What the plain append does behind an unended line that is not blank: the new header is
    pushed onto that line, so the last block of the text is spoilt and no other. */
module TomlPushed {
  import opened Options
  import opened Text
  import opened TomlBlocks
  import opened TomlSync
  import opened TomlEdits
  import opened TomlAppend

  /** A visible text behind another one shows. */
  lemma StripLonger(a: string, b: string)
    requires Strip(b) != ""
    ensures Strip(a + b) != Strip(a)
  {
    hide TrimBy;
    var s := a + b;
    var i, j := TrimParts(s, IsSpace);
    var i', j' := TrimParts(a, IsSpace);
    var k := VisibleIn(b);
    assert s[|a| + k] == b[k];
    assert j > |a|;
    if i' < j' {
      assert a[i'] == a[i'..j'][0] && s[i'] == a[i'];
      assert i <= i';
    }
  }

  lemma VisibleIn(s: string) returns (k: nat)
    requires Strip(s) != ""
    ensures k < |s| && !IsSpace(s[k])
  {
    hide TrimBy;
    var a, b := TrimParts(s, IsSpace);
    assert s[a..b][0] == s[a];
    k := a;
  }

  lemma VisibleInside(s: string, rest: string)
    requires Strip(s) != ""
    ensures Strip(s + rest) != ""
  {
    hide TrimBy;
    var k := VisibleIn(s);
    assert (s + rest)[k] == s[k];
    var a, b := TrimParts(s + rest, IsSpace);
  }

  /** A header pushed behind a header is a header. */
  lemma PushedIsHeader(p: string, h: string)
    requires IsHeader(p) && IsHeader(h)
    ensures IsHeader(p + h)
  {
    hide TrimBy;
    var s := p + h;
    var a, b := TrimParts(p, IsSpace);
    var c, d := TrimParts(h, IsSpace);
    var i, j := TrimParts(s, IsSpace);
    assert p[a] == p[a..b][0] == '[' && h[d - 1] == h[c..d][d - c - 1] == ']';
    assert s[a] == p[a] && s[|p| + d - 1] == h[d - 1];
    assert forall k :: 0 <= k < a ==> s[k] == p[k];
    assert forall k :: |p| + d <= k < |s| ==> s[k] == h[k - |p|];
    assert !IsSpace('[') && !IsSpace(']');
    assert i <= a && |p| + d <= j;
    assert s[i..j][0] == s[i] && s[i..j][j - i - 1] == s[j - 1];
  }

  lemma HeaderShows(b: Block)
    requires Headed(b)
    ensures Strip(b.text) != ""
  {
    hide Lines, Strip;
    HeadedParts(b);
    VisibleInside(Lines(b.text)[0], Concat(Lines(b.text)[1..]));
  }

  /** The lines of a block behind a partial line. */
  lemma PushedText(t: string, p: string, b: Block) returns (h: string, rest: seq<string>)
    requires Closed(t) && NoNewline(p) && Writable(b)
    ensures IsHeader(h) && NoHeaders(rest) && Lines(t + p + b.text) == Lines(t) + [p + h] + rest
  {
    hide Lines, IsHeader, KeyOfHeader, NoHeaders;
    WritableParts(b);
    HeadedParts(b);
    FirstLineIs(b.text);
    h, rest := Lines(b.text)[0], Lines(b.text)[1..];
    LinesConcat(h, Concat(rest));
    LinesOne(h);
    assert Lines(b.text) == [h] + Lines(Concat(rest));
    PushedLines(t, p, h, Concat(rest));
  }

  lemma HeaderFirst(h: string, rest: seq<string>, text: string)
    requires Lines(text) == [h] + rest && IsHeader(h) && NoHeaders(rest)
    ensures Headed(Block(KeyOfHeader(h), text))
  {
    hide Lines, IsHeader, KeyOfHeader, NoHeaders;
    assert ([h] + rest)[1..] == rest;
    HeadedFrom(Block(KeyOfHeader(h), text), [h] + rest);
  }

  /** A block that loses its partial line stays what it was. */
  lemma WithoutPartial(key: Option<string>, t: string, p: string)
    requires Closed(t) && t != "" && p != "" && NoNewline(p)
    ensures Headed(Block(key, t + p)) ==> Headed(Block(key, t))
    ensures Preamble(Block(key, t + p)) ==> Preamble(Block(key, t))
  {
    hide KeyOfHeader, IsHeader;
    LinesConcat(t, p);
    assert NoNewline(p[..|p| - 1]);
    WholeLine(p);
    var ls := Lines(t);
    hide Lines;
    var all := ls + [p];
    TextHasLines(t);
    assert forall k :: 0 <= k < |ls| ==> all[k] == ls[k];
    assert forall k :: 0 <= k < |ls| - 1 ==> ls[1..][k] == all[1..][k];
  }

  lemma TextHasLines(t: string)
    requires t != ""
    ensures Lines(t) != []
  {
  }

  lemma NoHeadersMiddle(ls: seq<string>, l: string, rest: seq<string>)
    ensures NoHeaders(ls + [l] + rest) <==> NoHeaders(ls) && !IsHeader(l) && NoHeaders(rest)
    ensures NoHeaders(ls + [l]) <==> NoHeaders(ls) && !IsHeader(l)
  {
    hide IsHeader;
    var all, less := ls + [l] + rest, ls + [l];
    assert forall k :: 0 <= k < |ls| ==> all[k] == ls[k] == less[k];
    assert all[|ls|] == l == less[|ls|];
    assert forall k :: 0 <= k < |rest| ==> all[k + |ls| + 1] == rest[k];
  }

  /** The last block with another one run into it stays one block, unless the line between the
      two reads as a header. */
  lemma RunTogether(last: Block, t: string, p: string, b: Block, h: string, rest: seq<string>)
    requires last.text == t + p && Closed(t) && p != "" && NoNewline(p)
    requires Lines(t + p + b.text) == Lines(t) + [p + h] + rest && IsHeader(h) && NoHeaders(rest) && !IsHeader(p + h)
    ensures Headed(last) ==> Headed(Block(last.key, last.text + b.text))
    ensures Preamble(last) ==> Preamble(Block(last.key, last.text + b.text))
  {
    hide *;
    var ls, b' := Lines(t), Block(last.key, last.text + b.text);
    EndedText(t);
    LinesConcat(t, p);
    OneLine(p);
    if Preamble(last) {
      PreambleParts(last);
      NoHeadersMiddle(ls, p, []);
      NoHeadersMiddle(ls, p + h, rest);
      PreambleFrom(b'.text, ls + [p + h] + rest);
    }
    if Headed(last) {
      HeadedParts(last);
      if t == "" {
        LinesNone();
        assert [] + [p] == [p];
        PushedIsHeader(p, h);
        assert false;
      }
      TextHasLines(t);
      assert (ls + [p])[1..] == ls[1..] + [p];
      assert (ls + [p + h] + rest)[1..] == ls[1..] + [p + h] + rest;
      NoHeadersMiddle(ls[1..], p, []);
      NoHeadersMiddle(ls[1..], p + h, rest);
      HeadedFrom(b', ls + [p + h] + rest);
    }
  }

  lemma OneLine(p: string)
    requires p != "" && NoNewline(p)
    ensures Lines(p) == [p]
  {
    assert NoNewline(p[..|p| - 1]);
    WholeLine(p);
  }

  lemma PreambleParts(b: Block)
    requires Preamble(b)
    ensures b.text != "" && b.key == None && NoHeaders(Lines(b.text))
  {
  }

  /** What comes of the last block: it is cut before the line the header was pushed onto, when
      that line reads as a header itself, and swallows the new block when not. */
  lemma LastSpoilt(front: seq<Block>, last: Block, b: Block) returns (x: seq<Block>)
    requires Tidy(front + [last]) && Writable(b) && Strip(Hanging(last.text)) != ""
    ensures Tidy(front + x) && Join(x) == last.text + b.text
    ensures forall k :: last.key == Some(k) ==> !Alike(FirstWith(x, k), Some(last))
  {
    var p, t := Hanging(last.text), EndedPart(last.text);
    hide *;
    StripNothing();
    WritableParts(b);
    HeaderShows(b);
    TidySnoc(front, last);
    var h, rest := PushedText(t, p, b);
    if IsHeader(p + h) {
      LinesBehind(t, p, b, h, rest);
      var b' := Block(KeyOfHeader(p + h), p + b.text);
      HeaderFirst(p + h, rest, b'.text);
      x := Pending(last.key, t) + [b'];
      PendingIs(last.key, t);
      PendingJoins(last.key, t);
      JoinAppend(Pending(last.key, t), [b']);
      OneJoined(b');
      assert t + (p + b.text) == last.text + b.text;
      if t == "" {
        assert front + ([] + [b']) == front + [b'];
        TidySnoc(front, b');
        StripLonger(p, b.text);
        assert "" + p == p && [] + [b'] == [b'];
      } else {
        var short := Block(last.key, t);
        WithoutPartial(last.key, t, p);
        TidySnoc(front, short);
        EndedIs(front, short);
        EndedText(t);
        TidySnoc(front + [short], b');
        assert front + ([short] + [b']) == front + [short] + [b'];
        StripLonger(t, p);
      }
      forall k | last.key == Some(k) ensures !Alike(FirstWith(x, k), Some(last)) {
        FirstWithConcat(Pending(last.key, t), [b'], k);
        FirstOfOne(Block(last.key, t), k);
        FirstOfOne(b', k);
        FirstOfNone(k);
        UnlikeBy(FirstWith(x, k), last);
      }
    } else {
      var b' := Block(last.key, last.text + b.text);
      RunTogether(last, t, p, b, h, rest);
      TidySnoc(front, b');
      OneJoined(b');
      StripLonger(last.text, b.text);
      x := [b'];
      forall k | last.key == Some(k) ensures !Alike(FirstWith(x, k), Some(last)) {
        FirstOfOne(b', k);
        UnlikeBy(FirstWith(x, k), last);
      }
    }
  }

  lemma StripNothing()
    ensures Strip("") == ""
  {
  }

  lemma FirstOfNone(k: string)
    ensures FirstWith([], k) == None
  {
  }

  lemma UnlikeBy(a: Option<Block>, last: Block)
    requires a.Some? ==> Strip(a.value.text) != Strip(last.text)
    ensures !Alike(a, Some(last))
  {
    hide Strip;
  }

  lemma LinesBehind(t: string, p: string, b: Block, h: string, rest: seq<string>)
    requires Closed(t) && Lines(t + p + b.text) == Lines(t) + [p + h] + rest
    ensures Lines(p + b.text) == [p + h] + rest
  {
    hide Lines;
    LinesConcat(t, p + b.text);
    assert t + p + b.text == t + (p + b.text);
    var ls, l, r := Lines(t), Lines(p + b.text), [p + h] + rest;
    assert ls + l == ls + r by { assert ls + [p + h] + rest == ls + r; }
    assert l == (ls + l)[|ls|..] == (ls + r)[|ls|..] == r;
  }

  /** The blocks before the last one. */
  function Front(bs: seq<Block>): seq<Block> {
    if bs == [] then [] else bs[..|bs| - 1]
  }

  /** The first block of the key is the last of the text. */
  predicate StandsLast(text: string, key: string) {
    var bs := Split(text);
    bs != [] && bs[|bs| - 1].key == Some(key) && FirstWith(Front(bs), key).None?
  }

  /** Behind an unended line that is not blank, a plain append leaves every block the first of
      its key and what it was, but for the last of the text. */
  lemma PushedAppend(text: string, key: string, block: string, k: string)
    requires Writable(Block(Some(key), block)) && WithNewline(block) == block
    requires !HasKey(text, key) && !HasKey(text, "ui") && Strip(Hanging(text)) != "" && HasKey(text, k)
    ensures Alike(FirstWith(Split(Upsert(text, key, block)), k), FirstWith(Split(text), k)) <==> !StandsLast(text, k)
  {
    var b := Block(Some(key), block);
    hide *;
    StripNothing();
    ClosedIff(text);
    var front, last := LastHangs(text);
    var x := LastSpoilt(front, last, b);
    AppendIs(text, key, block);
    TidyJoin(front + x);
    JoinAppend(front, x);
    JoinAppend(front, [last]);
    OneJoined(last);
    SplitIsTidy(text);
    assert Join(front) + (last.text + block) == Join(front) + last.text + block;
    assert Split(Upsert(text, key, block)) == front + x;
    FirstWithConcat(front, x, k);
    FirstWithConcat(front, [last], k);
    FirstOfOne(last, k);
    HasKeyIs(text, k);
    StandsLastIs(text, front, last, k);
    AlikeItself(FirstWith(front, k));
  }

  lemma StandsLastIs(text: string, front: seq<Block>, last: Block, k: string)
    requires Split(text) == front + [last]
    ensures StandsLast(text, k) <==> last.key == Some(k) && FirstWith(front, k).None?
  {
    hide Split, FirstWith;
    assert (front + [last])[..|front|] == front;
  }

  lemma AlikeItself(b: Option<Block>)
    ensures Alike(b, b)
  {
    hide Strip;
  }
}
