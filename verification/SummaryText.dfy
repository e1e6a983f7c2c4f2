/** What `format_compact_summary` makes of a reply, by what stands in it: a scratchpad in front, a
    complete summary block, or neither. */
module SummaryText {
  import opened Options
  import opened Text
  import opened CompactSummary
  import opened CleanSummary
  import opened UntaggedScratchpad

  /** The last steps: echoed tokens defused, blank-line runs cut, outer blanks off. */
  function Tidied(text: string): string {
    Trim(Squeezed(NeutralizeCompactionControlTokens(text)))
  }

  // ---- where tags stand ----

  lemma TagsAreShaped()
    ensures TagShaped(SUMMARY_OPEN) && TagShaped(SUMMARY_CLOSE) && TagShaped(ANALYSIS_OPEN) && TagShaped(ANALYSIS_CLOSE)
    ensures |SUMMARY_OPEN| == 9 && |SUMMARY_CLOSE| == 10 && |ANALYSIS_OPEN| == 10 && |ANALYSIS_CLOSE| == 11
  {
    TokensAreTokens();
  }

  // ---- the summary block ----

  /** A summary opener stands before a summary closer. */
  predicate HasBlock(s: string) {
    exists i, j :: 0 <= i < j <= |s| && At(s, i, SUMMARY_OPEN) && At(s, j, SUMMARY_CLOSE)
  }

  lemma UnwrappedNone(s: string)
    requires !HasBlock(s)
    ensures Unwrapped(s) == s
  {
    hide Find, FindLast, SUMMARY_OPEN, SUMMARY_CLOSE, StripLeadingScratchpad, TrimBy;
    var start, end := Find(s, SUMMARY_OPEN), FindLast(s, SUMMARY_CLOSE);
    if start.Some? && end.Some? && end.value > start.value {
      assert false;
    }
  }

  /** `inner` as the block between the first opener and the last closer. */
  function Framed(before: string, inner: string, after: string): string {
    before + SUMMARY_OPEN + inner + SUMMARY_CLOSE + after
  }

  predicate IsFrame(before: string, after: string) {
    !Contains(before, SUMMARY_OPEN) && !Contains(after, SUMMARY_CLOSE)
  }

  lemma UnwrappedFrame(before: string, inner: string, after: string)
    requires IsFrame(before, after)
    ensures Unwrapped(Framed(before, inner, after)) == before + HEADING + StripLeadingScratchpad(Trim(inner)) + after
  {
    TagsAreShaped();
    hide *;
    FrameParts(before, inner, after);
    var s := Framed(before, inner, after);
    var lead := before + SUMMARY_OPEN + inner;
    FirstIn(before, SUMMARY_OPEN, inner + SUMMARY_CLOSE + after);
    LastIn(lead, SUMMARY_CLOSE, after);
    assert before + SUMMARY_OPEN + (inner + SUMMARY_CLOSE + after) == s == lead + SUMMARY_CLOSE + after;
    UnwrappedUnfold(s, |before|, |lead|);
    assert s[..|before|] == before && s[|before| + |SUMMARY_OPEN|..|lead|] == inner;
    assert s[|lead| + |SUMMARY_CLOSE|..] == after;
  }

  lemma FrameParts(before: string, inner: string, after: string)
    ensures Framed(before, inner, after) == before + SUMMARY_OPEN + inner + SUMMARY_CLOSE + after
    ensures IsFrame(before, after) <==> !Contains(before, SUMMARY_OPEN) && !Contains(after, SUMMARY_CLOSE)
  {
    hide SUMMARY_OPEN, SUMMARY_CLOSE, Contains;
  }

  // ---- the scratchpad in front ----

  /** An opener with `a` in front of it leads: nothing visible stands before it, or it stands
      ahead of the first summary opener, or only blanks stand between that and it. */
  ghost predicate Leads(a: string, s: string) {
    || (!Contains(s, SUMMARY_OPEN) && AllMatch(a, IsWhitespace))
    || (!Contains(a, SUMMARY_OPEN) && Contains(s, SUMMARY_OPEN))
    || (exists x, y :: BlankBehind(a, x, y))
  }

  predicate BlankBehind(a: string, x: string, y: string) {
    a == x + SUMMARY_OPEN + y && !Contains(x, SUMMARY_OPEN) && AllMatch(y, IsWhitespace)
  }

  /** No scratchpad leads: there is no opener, or the first one does not lead. */
  ghost predicate Unled(s: string) {
    !Contains(s, ANALYSIS_OPEN) || exists a, b :: FirstOpener(s, a, b) && !Leads(a, s)
  }

  predicate FirstOpener(s: string, a: string, b: string) {
    s == a + ANALYSIS_OPEN + b && !Contains(a, ANALYSIS_OPEN)
  }

  lemma BlankTrims(s: string)
    ensures Trim(s) == "" <==> AllMatch(s, IsWhitespace)
  {
    hide TrimBy;
    var a, b := TrimParts(s, IsWhitespace);
    if Trim(s) != "" {
      assert s[a..b][0] == s[a];
    }
  }

  /** A summary opener in front of the opener stands in `a`. */
  lemma OpenerInFront(a: string, b: string, sp: nat)
    requires At(a + ANALYSIS_OPEN + b, sp, SUMMARY_OPEN) && sp <= |a|
    ensures sp + |SUMMARY_OPEN| <= |a| && At(a, sp, SUMMARY_OPEN)
  {
    TagsAreShaped();
    hide SUMMARY_OPEN, ANALYSIS_OPEN, TagShaped;
    var s := a + ANALYSIS_OPEN + b;
    Pieces(a, ANALYSIS_OPEN, b);
    OpenersApart(s, sp, |a|);
    assert s[0..|a|] == a;
    AtSlice(s, 0, |a|, sp, SUMMARY_OPEN);
  }

  lemma LeadsIff(a: string, b: string)
    ensures var s := a + ANALYSIS_OPEN + b; At(s, |a|, ANALYSIS_OPEN) && (IsLeading(s, |a|) <==> Leads(a, s))
  {
    var s := a + ANALYSIS_OPEN + b;
    TagsAreShaped();
    Pieces(a, ANALYSIS_OPEN, b);
    hide SUMMARY_OPEN, ANALYSIS_OPEN, TagShaped, Find, TrimBy, AllMatch, Contains;
    BlankTrims(a);
    var sp := Find(s, SUMMARY_OPEN);
    if sp.None? {
      NoneInFront(a, b);
      assert s[..|a|] == a;
      if x, y :| BlankBehind(a, x, y) {
        SameFront(a, b, x, y);
      }
    } else if |a| < sp.value {
      NoneBefore(a, b, sp.value);
    } else {
      OpenerInFront(a, b, sp.value);
      Occurs(a, sp.value, SUMMARY_OPEN);
      var x, y := a[..sp.value], a[sp.value + |SUMMARY_OPEN|..];
      assert a == x + SUMMARY_OPEN + y;
      assert s[sp.value + |SUMMARY_OPEN|..|a|] == y;
      BlankTrims(y);
      FirstInFront(a, b, x, sp.value);
      assert AllMatch(y, IsWhitespace) ==> BlankBehind(a, x, y);
      if x', y' :| BlankBehind(a, x', y') {
        SameFront(a, b, x', y');
      }
    }
  }

  lemma NoneInFront(a: string, b: string)
    requires !Contains(a + ANALYSIS_OPEN + b, SUMMARY_OPEN)
    ensures !Contains(a, SUMMARY_OPEN)
  {
    hide SUMMARY_OPEN, ANALYSIS_OPEN;
    var s := a + ANALYSIS_OPEN + b;
    assert s[0..|a|] == a;
    if Contains(a, SUMMARY_OPEN) { SliceContains(s, 0, |a|, SUMMARY_OPEN); }
  }

  lemma NoneBefore(a: string, b: string, sp: nat)
    requires Find(a + ANALYSIS_OPEN + b, SUMMARY_OPEN) == Some(sp) && |a| < sp
    ensures !Contains(a, SUMMARY_OPEN) && Contains(a + ANALYSIS_OPEN + b, SUMMARY_OPEN)
  {
    hide SUMMARY_OPEN, ANALYSIS_OPEN, Find;
    var s := a + ANALYSIS_OPEN + b;
    assert s[0..|a|] == a;
    if i :| 0 <= i <= |a| && At(a, i, SUMMARY_OPEN) {
      AtSlice(s, 0, |a|, i, SUMMARY_OPEN);
    }
  }

  lemma FirstInFront(a: string, b: string, x: string, sp: nat)
    requires Find(a + ANALYSIS_OPEN + b, SUMMARY_OPEN) == Some(sp) && sp + |SUMMARY_OPEN| <= |a| && x == a[..sp]
    ensures !Contains(x, SUMMARY_OPEN)
  {
    hide SUMMARY_OPEN, ANALYSIS_OPEN, Find;
    TokensAreTokens();
    var s := a + ANALYSIS_OPEN + b;
    assert s[0..sp] == x;
    if i :| 0 <= i <= |x| && At(x, i, SUMMARY_OPEN) {
      AtSlice(s, 0, sp, i, SUMMARY_OPEN);
      AtInside(x, i, SUMMARY_OPEN);
    }
  }

  lemma SameFront(a: string, b: string, x: string, y: string)
    requires BlankBehind(a, x, y)
    ensures Find(a + ANALYSIS_OPEN + b, SUMMARY_OPEN) == Some(|x|)
    ensures |x| + |SUMMARY_OPEN| <= |a| && a[|x| + |SUMMARY_OPEN|..] == y && AllMatch(y, IsWhitespace)
  {
    TagsAreShaped();
    hide SUMMARY_OPEN, ANALYSIS_OPEN, TagShaped, Contains, AllMatch;
    FirstIn(x, SUMMARY_OPEN, y + ANALYSIS_OPEN + b);
    assert x + SUMMARY_OPEN + (y + ANALYSIS_OPEN + b) == a + ANALYSIS_OPEN + b;
  }

  lemma UnledStays(s: string)
    requires Unled(s)
    ensures Peeled(s) == s
  {
    TagsAreShaped();
    hide Peeled, Find, Leads, IsLeading, TagShaped, Contains, ANALYSIS_OPEN;
    PeeledUnfold(s);
    if Contains(s, ANALYSIS_OPEN) {
      var a, b :| FirstOpener(s, a, b) && !Leads(a, s);
      FirstIn(a, ANALYSIS_OPEN, b);
      LeadsIff(a, b);
    }
  }

  // ---- texts that hold no complete block ----

  /** A text with no leading scratchpad and no complete block is only tidied: nothing of it is
      dropped, whatever opener or closer it holds. */
  lemma NoBlockKept(text: string)
    requires Unled(text) && !HasBlock(text)
    ensures Formatted(text) == Tidied(text)
  {
    hide *;
    UnledStays(text);
    UnwrappedNone(text);
    TidiedUnfold(text);
  }

  lemma TidiedUnfold(text: string)
    ensures Formatted(text) == Tidied(Unwrapped(Peeled(text)))
  {
    FormattedUnfold(text);
    hide Peeled, Unwrapped, Squeezed, NeutralizeCompactionControlTokens, TrimBy;
  }

  // ---- texts that hold one ----

  /** What stands before and behind the block is kept, and the block is the heading and its body,
      trimmed, when that starts with a number. */
  lemma NumberedBlock(before: string, body: string, after: string)
    requires IsFrame(before, after) && Unled(Framed(before, body, after)) && Numbered(Trim(body))
    ensures Formatted(Framed(before, body, after)) == Tidied(before + HEADING + Trim(body) + after)
  {
    hide *;
    UnledStays(Framed(before, body, after));
    UnwrappedFrame(before, body, after);
    NumberedNotStripped(body);
    TidiedUnfold(Framed(before, body, after));
  }

  /** So it is when the body holds no scratchpad closer, but for a wrapper it starts with. */
  lemma PlainBlock(before: string, body: string, after: string)
    requires IsFrame(before, after) && Unled(Framed(before, body, after)) && !Contains(body, ANALYSIS_CLOSE)
    ensures Formatted(Framed(before, body, after)) == Tidied(before + HEADING + WithoutWrapper(Trim(body)) + after)
  {
    hide *;
    UnledStays(Framed(before, body, after));
    UnwrappedFrame(before, body, after);
    PlainNotStripped(body);
    TidiedUnfold(Framed(before, body, after));
  }

  lemma PlainNotStripped(body: string)
    requires !Contains(body, ANALYSIS_CLOSE)
    ensures StripLeadingScratchpad(Trim(body)) == WithoutWrapper(Trim(body))
  {
    hide TrimBy, SUMMARY_OPEN, ANALYSIS_CLOSE, Numbered, Contains, FindLast, TrimStartBy;
    TrimTwice(body);
    if Contains(Trim(body), ANALYSIS_CLOSE) { TrimContains(body, ANALYSIS_CLOSE); }
  }

  /** And of notes that end at the last closer of an unnumbered body nothing is kept. */
  lemma HeaderedBlock(before: string, notes: string, body: string, after: string)
    requires IsFrame(before, after) && Unled(Framed(before, Headered(notes, body), after))
    requires !Contains(body, ANALYSIS_CLOSE) && !Numbered(Trim(Headered(notes, body)))
    ensures Formatted(Framed(before, Headered(notes, body), after))
         == Tidied(before + HEADING + WithoutWrapper(Trim(body)) + after)
  {
    hide *;
    UnledStays(Framed(before, Headered(notes, body), after));
    UnwrappedFrame(before, Headered(notes, body), after);
    HeaderDropped(notes, body);
    TidiedUnfold(Framed(before, Headered(notes, body), after));
  }

  // ---- texts that a scratchpad leads ----

  /** A closed scratchpad that leads is dropped, and what stands around it closes up. */
  lemma ClosedScratchpadDropped(a: string, notes: string, b: string)
    requires var s := a + Scratchpad(notes) + b; !Contains(a, ANALYSIS_OPEN) && Leads(a, s)
    requires !Contains(notes, ANALYSIS_CLOSE)
    ensures Formatted(a + Scratchpad(notes) + b) == Formatted(a + b)
  {
    TagsAreShaped();
    hide *;
    var s, rest := a + Scratchpad(notes) + b, Scratchpad(notes) + b;
    var n := |ANALYSIS_OPEN| + |notes|;
    ScratchpadIs(notes);
    var behind := notes + ANALYSIS_CLOSE + b;
    assert s == a + ANALYSIS_OPEN + behind && s[|a|..] == rest;
    FirstIn(a, ANALYSIS_OPEN, behind);
    LeadsIff(a, behind);
    ScratchpadPieces(notes, b);
    forall j | 0 <= j < n ensures !At(rest, j, ANALYSIS_CLOSE) {
      if At(rest, j, ANALYSIS_CLOSE) { FirstCloser(notes, b, j); }
    }
    FindIs(rest, ANALYSIS_CLOSE, n);
    PeeledUnfold(s);
    assert s[..|a|] == a && s[|a| + n + |ANALYSIS_CLOSE|..] == rest[n + |ANALYSIS_CLOSE|..] == b;
    TidiedUnfold(s);
    TidiedUnfold(a + b);
  }

  lemma ScratchpadIs(notes: string)
    ensures Scratchpad(notes) == ANALYSIS_OPEN + notes + ANALYSIS_CLOSE
  {
  }

  /** One that is not closed is dropped up to the next summary opener, or to the end. */
  lemma OpenScratchpadPeeled(a: string, gap: string, tail: string)
    requires var s := a + ANALYSIS_OPEN + (gap + tail); !Contains(a, ANALYSIS_OPEN) && Leads(a, s)
    requires !Contains(ANALYSIS_OPEN + (gap + tail), ANALYSIS_CLOSE)
    requires !Contains(gap, SUMMARY_OPEN) && (tail == "" || At(tail, 0, SUMMARY_OPEN))
    ensures Peeled(a + ANALYSIS_OPEN + (gap + tail)) == a + tail
  {
    TagsAreShaped();
    hide *;
    var s, rest := a + ANALYSIS_OPEN + (gap + tail), ANALYSIS_OPEN + (gap + tail);
    assert s[|a|..] == rest;
    FirstIn(a, ANALYSIS_OPEN, gap + tail);
    LeadsIff(a, gap + tail);
    PeeledUnfold(s);
    ResumesBehind(gap, tail);
    ResumeIs(s, |a|);
    FoundOrNot(rest, ANALYSIS_CLOSE);
    assert s[..|a|] == a;
    assert s[|a| + |ANALYSIS_OPEN| + |gap|..] == tail;
    assert s[|s|..] == "";
  }

  lemma FoundOrNot(s: string, t: string)
    ensures Find(s, t).None? <==> !Contains(s, t)
  {
    hide Contains;
  }

  lemma ResumeIs(s: string, start: nat)
    requires start <= |s|
    ensures var rel := Find(s[start..], SUMMARY_OPEN);
            ResumeAt(s, start) == if rel.Some? then start + rel.value else |s|
  {
    hide Find, SUMMARY_OPEN;
  }

  lemma ResumesBehind(gap: string, tail: string)
    requires !Contains(gap, SUMMARY_OPEN) && (tail == "" || At(tail, 0, SUMMARY_OPEN))
    ensures Find(ANALYSIS_OPEN + (gap + tail), SUMMARY_OPEN)
         == if At(tail, 0, SUMMARY_OPEN) then Some(|ANALYSIS_OPEN| + |gap|) else None
  {
    TagsAreShaped();
    NoOpenerInOpener(gap);
    hide SUMMARY_OPEN, ANALYSIS_OPEN, TagShaped, Contains, Find;
    var lead := ANALYSIS_OPEN + gap;
    assert ANALYSIS_OPEN + (gap + tail) == lead + tail;
    if At(tail, 0, SUMMARY_OPEN) {
      var behind := tail[|SUMMARY_OPEN|..];
      assert tail == SUMMARY_OPEN + behind by { assert tail == tail[0..|SUMMARY_OPEN|] + behind; }
      hide At;
      FirstIn(lead, SUMMARY_OPEN, behind);
      assert lead + SUMMARY_OPEN + behind == lead + tail;
    } else {
      assert lead + tail == lead;
      FoundOrNot(lead, SUMMARY_OPEN);
    }
  }

  lemma NoOpenerInOpener(gap: string)
    requires !Contains(gap, SUMMARY_OPEN)
    ensures !Contains(ANALYSIS_OPEN + gap, SUMMARY_OPEN)
  {
    TagsAreShaped();
    TokensAreTokens();
    hide *;
    OtherAbsent(ANALYSIS_OPEN, gap, SUMMARY_OPEN);
  }

  /** When no complete block is left then, what is left is only tidied. */
  lemma OpenScratchpadCut(a: string, gap: string, tail: string)
    requires var s := a + ANALYSIS_OPEN + (gap + tail); !Contains(a, ANALYSIS_OPEN) && Leads(a, s)
    requires !Contains(ANALYSIS_OPEN + (gap + tail), ANALYSIS_CLOSE)
    requires !Contains(gap, SUMMARY_OPEN) && (tail == "" || At(tail, 0, SUMMARY_OPEN))
    requires !HasBlock(a + tail)
    ensures Formatted(a + ANALYSIS_OPEN + (gap + tail)) == Tidied(a + tail)
  {
    hide *;
    OpenScratchpadPeeled(a, gap, tail);
    UnwrappedNone(a + tail);
    TidiedUnfold(a + ANALYSIS_OPEN + (gap + tail));
  }

  /** And when one is left, it is unwrapped as ever. */
  lemma OpenScratchpadBlock(a: string, gap: string, tail: string, before: string, body: string, after: string)
    requires var s := a + ANALYSIS_OPEN + (gap + tail); !Contains(a, ANALYSIS_OPEN) && Leads(a, s)
    requires !Contains(ANALYSIS_OPEN + (gap + tail), ANALYSIS_CLOSE)
    requires !Contains(gap, SUMMARY_OPEN) && At(tail, 0, SUMMARY_OPEN)
    requires a + tail == Framed(before, body, after) && IsFrame(before, after) && !Contains(body, ANALYSIS_CLOSE)
    ensures Formatted(a + ANALYSIS_OPEN + (gap + tail)) == Tidied(before + HEADING + WithoutWrapper(Trim(body)) + after)
  {
    hide *;
    OpenScratchpadPeeled(a, gap, tail);
    UnwrappedFrame(before, body, after);
    PlainNotStripped(body);
    TidiedUnfold(a + ANALYSIS_OPEN + (gap + tail));
  }

  /** The number stands behind decoration only. */
  lemma NumberedIff(s: string)
    ensures Numbered(s) <==> exists d :: 0 <= d < |s| && '0' <= s[d] <= '9'
                                         && forall k :: 0 <= k < d ==> s[k] in {'#', '*', '-', '>', ' ', '\t'}
  {
    var lead := TrimStartBy(s, IsDecoration);
    hide TrimStartBy;
    var n := |s| - |lead|;
    assert lead != "" ==> lead[0] == s[n];
    if d :| 0 <= d < |s| && '0' <= s[d] <= '9' && forall k :: 0 <= k < d ==> s[k] in {'#', '*', '-', '>', ' ', '\t'} {
      assert !IsDecoration(s[d]);
      assert n <= d;
    }
  }

  // ---- defusing loses nothing ----

  /** The text without zero-width spaces. */
  function Plain(s: string): string {
    if s == "" then "" else (if s[0] == ZERO_WIDTH_SPACE then "" else [s[0]]) + Plain(s[1..])
  }

  lemma {:induction false} PlainConcat(a: string, b: string)
    ensures Plain(a + b) == Plain(a) + Plain(b)
  {
    if a == "" {
      assert a + b == b;
    } else {
      assert (a + b)[1..] == a[1..] + b;
      PlainConcat(a[1..], b);
    }
  }

  lemma PlainDefused(t: string)
    requires IsToken(t) && |t| > 0
    ensures Plain(Defused(t)) == Plain(t)
  {
    var head: string := ['<', ZERO_WIDTH_SPACE];
    PlainConcat(head, t[1..]);
    assert head[1..] == [ZERO_WIDTH_SPACE] && [ZERO_WIDTH_SPACE][1..] == "";
    assert Plain(head) == "<";
    assert t[0] == '<';
  }

  lemma {:induction false} ReplacedPlain(s: string, t: string)
    requires IsToken(t) && |t| > 0
    ensures Plain(ReplaceAll(s, t, Defused(t))) == Plain(s)
    decreases |s|
  {
    PlainDefused(t);
    hide Plain, IsToken, ReplaceAll, Defused;
    ReplaceStep(s, t);
    if s != "" {
      if At(s, 0, t) {
        ReplacedPlain(s[|t|..], t);
        assert s == s[0..|t|] + s[|t|..] == t + s[|t|..];
        PlainConcat(t, s[|t|..]);
        PlainConcat(Defused(t), ReplaceAll(s[|t|..], t, Defused(t)));
      } else {
        ReplacedPlain(s[1..], t);
        assert s == [s[0]] + s[1..];
        PlainConcat([s[0]], s[1..]);
        PlainConcat([s[0]], ReplaceAll(s[1..], t, Defused(t)));
      }
    }
  }

  /** But for the zero-width spaces it puts in, defusing leaves a text as it was. */
  lemma {:induction false} NeutralizedPlain(text: string, tokens: seq<string>)
    requires forall k :: 0 <= k < |tokens| ==> |tokens[k]| > 0 && IsToken(tokens[k])
    ensures Plain(Neutralized(text, tokens)) == Plain(text)
    decreases |tokens|
  {
    if tokens != [] {
      hide Plain, ReplaceAll, Defused, IsToken;
      ReplacedPlain(text, tokens[0]);
      NeutralizedPlain(ReplaceAll(text, tokens[0], Defused(tokens[0])), tokens[1..]);
    }
  }

  // ---- a reply that was cut off, to the letter ----

  /** The opener as it is defused. */
  const DEFUSED_OPEN := "<\U{200B}summary>"

  lemma DefusedOpen()
    ensures Defused(SUMMARY_OPEN) == DEFUSED_OPEN && TagShaped(DEFUSED_OPEN)
    ensures |DEFUSED_OPEN| == 10 && DEFUSED_OPEN[1] == ZERO_WIDTH_SPACE
  {
  }

  /** One token at the very start is replaced there, and the rest stays when it holds none. */
  lemma ReplacedFirst(t: string, body: string)
    requires IsToken(t) && |t| > 0 && !Contains(body, t)
    ensures ReplaceAll(t + body, t, Defused(t)) == Defused(t) + body
  {
    hide *;
    Pieces("", t, body);
    assert "" + t + body == t + body;
    ReplaceStep(t + body, t);
    assert (t + body)[|t|..] == body;
    ReplaceAbsent(body, t);
  }

  /** A tag of another name does not start a text that starts with a tag. */
  lemma OtherAbsent(t: string, body: string, u: string)
    requires TagShaped(t) && TagShaped(u) && |t| > 1 && |u| > 1 && t[1] != u[1] && !Contains(body, u)
    ensures !Contains(t + body, u)
  {
    hide *;
    if Contains(t + body, u) {
      var i := Occurrence(t + body, u);
      OtherInside(t, body, u, i);
    }
  }

  lemma OtherInside(t: string, body: string, u: string, i: int)
    requires TagShaped(t) && TagShaped(u) && |t| > 1 && |u| > 1 && t[1] != u[1] && At(t + body, i, u)
    ensures Contains(body, u)
  {
    hide *;
    var s := t + body;
    Pieces("", t, body);
    assert "" + t + body == s;
    AtInside(s, i, u);
    SecondChars(s, t, i, u);
    TagsApart(s, 0, t, i, u);
    assert s[|t|..|s|] == body;
    AtSlice(s, |t|, |s|, i - |t|, u);
    Occurs(body, i - |t|, u);
  }

  lemma SecondChars(s: string, t: string, i: int, u: string)
    requires At(s, 0, t) && At(s, i, u) && |t| > 1 && |u| > 1 && t[1] != u[1]
    ensures i > 0
  {
    AtChars(s, 0, t);
    AtChars(s, i, u);
    assert s[1] == t[1] && s[i + 1] == u[1];
  }

  lemma NeutralStep(text: string, tokens: seq<string>)
    requires tokens != [] && forall k :: 0 <= k < |tokens| ==> |tokens[k]| > 0
    ensures Neutralized(text, tokens) == Neutralized(ReplaceAll(text, tokens[0], Defused(tokens[0])), tokens[1..])
  {
    hide ReplaceAll, Defused;
  }

  lemma LaterTokens()
    ensures CONTROL_TOKENS == [SUMMARY_CLOSE] + ([SUMMARY_OPEN] + CONTROL_TOKENS[2..])
    ensures forall u :: u in CONTROL_TOKENS ==> TagShaped(u) && |u| > 1 && u[1] != ZERO_WIDTH_SPACE
    ensures SUMMARY_CLOSE in CONTROL_TOKENS && SUMMARY_OPEN in CONTROL_TOKENS && ANALYSIS_OPEN in CONTROL_TOKENS
  {
    FirstTokens();
    TokensAreTokens();
    hide IsToken, TagShaped, CONTROL_TOKENS, SUMMARY_OPEN, SUMMARY_CLOSE, ANALYSIS_OPEN;
    forall u | u in CONTROL_TOKENS ensures TagShaped(u) && |u| > 1 && u[1] != ZERO_WIDTH_SPACE {
      TokenChars(u);
      TokenShaped(u);
    }
  }

  lemma FirstTokens()
    ensures |CONTROL_TOKENS| == 6 && CONTROL_TOKENS[0] == SUMMARY_CLOSE && CONTROL_TOKENS[1] == SUMMARY_OPEN
    ensures CONTROL_TOKENS[3] == ANALYSIS_OPEN
  {
    hide SUMMARY_OPEN, SUMMARY_CLOSE, ANALYSIS_OPEN;
  }

  lemma TokenShaped(u: string)
    requires IsToken(u)
    ensures TagShaped(u)
  {
  }

  lemma UnclosedNeutral(body: string)
    requires forall t :: t in CONTROL_TOKENS ==> !Contains(body, t)
    ensures NeutralizeCompactionControlTokens(SUMMARY_OPEN + body) == DEFUSED_OPEN + body
  {
    TokensAreTokens();
    TagsAreShaped();
    LaterTokens();
    DefusedOpen();
    hide *;
    var text, later := SUMMARY_OPEN + body, CONTROL_TOKENS[2..];
    var rest := [SUMMARY_OPEN] + later;
    OtherAbsent(SUMMARY_OPEN, body, SUMMARY_CLOSE);
    ReplaceAbsent(text, SUMMARY_CLOSE);
    NeutralIs(text);
    NeutralStep(text, CONTROL_TOKENS);
    assert ([SUMMARY_CLOSE] + rest)[1..] == rest && rest[1..] == later && rest[0] == SUMMARY_OPEN;
    NeutralStep(text, rest);
    ReplacedFirst(SUMMARY_OPEN, body);
    forall k | 0 <= k < |later|
      ensures |later[k]| > 0 && IsToken(later[k]) && !Contains(DEFUSED_OPEN + body, later[k])
    {
      assert later[k] == CONTROL_TOKENS[k + 2];
      OtherAbsent(DEFUSED_OPEN, body, later[k]);
    }
    NeutralizeAbsent(DEFUSED_OPEN + body, later);
  }

  lemma NeutralIs(text: string)
    ensures NeutralizeCompactionControlTokens(text) == Neutralized(text, CONTROL_TOKENS)
  {
    hide Neutralized, CONTROL_TOKENS;
  }

  lemma NoTripleBehind(body: string)
    requires !Contains(body, TRIPLE_NEWLINE)
    ensures !Contains(DEFUSED_OPEN + body, TRIPLE_NEWLINE)
  {
    var s := DEFUSED_OPEN + body;
    if i :| 0 <= i <= |s| && At(s, i, TRIPLE_NEWLINE) {
      AtChars(s, i, TRIPLE_NEWLINE);
      assert forall k :: 0 <= k < |DEFUSED_OPEN| ==> s[k] == DEFUSED_OPEN[k] != '\n';
      assert s[i] == '\n';
      assert s[|DEFUSED_OPEN|..|s|] == body;
      AtSlice(s, |DEFUSED_OPEN|, |s|, i - |DEFUSED_OPEN|, TRIPLE_NEWLINE);
      Occurs(body, i - |DEFUSED_OPEN|, TRIPLE_NEWLINE);
    }
  }

  lemma TrimBehind(body: string)
    ensures Trim(DEFUSED_OPEN + body) == DEFUSED_OPEN + TrimEndBy(body, IsWhitespace)
  {
    DefusedOpen();
    hide TrimEndBy, TrimBy;
    var kept := TrimEndBy(body, IsWhitespace);
    var m, blank := DEFUSED_OPEN + kept, body[|kept|..];
    assert DEFUSED_OPEN + body == "" + m + blank;
    assert m[0] == DEFUSED_OPEN[0] == '<';
    assert m[|m| - 1] == if kept != "" then kept[|kept| - 1] else DEFUSED_OPEN[9];
    assert DEFUSED_OPEN[9] == '>';
    assert forall k :: 0 <= k < |blank| ==> blank[k] == body[|kept| + k];
    TrimIs("", m, blank, IsWhitespace);
  }

  /** A block that was never closed is kept whole behind the defused opener, to the letter but for
      blanks at its end, when it echoes no token and has no blank-line run. */
  lemma UnclosedVerbatim(body: string)
    requires !Contains(body, TRIPLE_NEWLINE) && forall t :: t in CONTROL_TOKENS ==> !Contains(body, t)
    ensures Formatted(SUMMARY_OPEN + body) == DEFUSED_OPEN + TrimEndBy(body, IsWhitespace)
  {
    TokensAreTokens();
    TagsAreShaped();
    LaterTokens();
    hide *;
    var text := SUMMARY_OPEN + body;
    OtherAbsent(SUMMARY_OPEN, body, ANALYSIS_OPEN);
    OtherAbsent(SUMMARY_OPEN, body, SUMMARY_CLOSE);
    UnledWithout(text);
    NoBlockWithout(text);
    NoBlockKept(text);
    UnclosedNeutral(body);
    NoTripleBehind(body);
    SqueezedFixed(DEFUSED_OPEN + body);
    TrimBehind(body);
    TidiedIs(text);
  }

  lemma UnledWithout(s: string)
    requires !Contains(s, ANALYSIS_OPEN)
    ensures Unled(s)
  {
    hide Contains, Leads;
  }

  lemma NoBlockWithout(s: string)
    requires !Contains(s, SUMMARY_CLOSE)
    ensures !HasBlock(s)
  {
  }

  lemma TidiedIs(text: string)
    ensures Tidied(text) == Trim(Squeezed(NeutralizeCompactionControlTokens(text)))
  {
    hide Squeezed, NeutralizeCompactionControlTokens, TrimBy;
  }
}
