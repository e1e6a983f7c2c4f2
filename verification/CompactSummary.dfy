/** `format_compact_summary`: peel leading scratchpad, unwrap the summary block,
    defuse echoed control tokens, collapse blank lines, trim. */
module CompactSummary {
  import opened Options
  import opened Text

  const SUMMARY_OPEN := "<summary>"
  const SUMMARY_CLOSE := "</summary>"
  const ANALYSIS_OPEN := "<analysis>"
  const ANALYSIS_CLOSE := "</analysis>"
  const REQUEST_OPEN := "<summary_request>"
  const REQUEST_CLOSE := "</summary_request>"
  const HEADING := "Summary:\n"
  const ZERO_WIDTH_SPACE: char := '\U{200B}'

  /** The control tokens, in the order they are defused. */
  const CONTROL_TOKENS: seq<string> := [
    SUMMARY_CLOSE, SUMMARY_OPEN, ANALYSIS_CLOSE, ANALYSIS_OPEN, REQUEST_CLOSE, REQUEST_OPEN
  ]

  predicate IsToken(t: string) {
    TagShaped(t) && forall k :: 0 <= k < |t| ==> t[k] != '\n' && t[k] != ZERO_WIDTH_SPACE
  }

  lemma TokensAreTokens()
    ensures forall t :: t in CONTROL_TOKENS ==> IsToken(t)
    ensures IsToken(SUMMARY_OPEN) && IsToken(SUMMARY_CLOSE) && IsToken(ANALYSIS_OPEN) && IsToken(ANALYSIS_CLOSE)
    ensures |SUMMARY_OPEN| == 9 && |SUMMARY_CLOSE| == 10 && |ANALYSIS_OPEN| == 10 && |ANALYSIS_CLOSE| == 11
    ensures SUMMARY_OPEN[1] == 's' && ANALYSIS_OPEN[1] == 'a' && SUMMARY_CLOSE[1] == '/' && ANALYSIS_CLOSE[1] == '/'
    ensures ANALYSIS_CLOSE[2] == 'a' && SUMMARY_CLOSE[2] == 's'
  {
    assert IsToken(SUMMARY_OPEN);
    assert IsToken(SUMMARY_CLOSE);
    assert IsToken(ANALYSIS_OPEN);
    assert IsToken(ANALYSIS_CLOSE);
    assert IsToken(REQUEST_OPEN);
    assert IsToken(REQUEST_CLOSE);
  }

  // ---- step 1: leading scratchpad blocks ----

  /** An opener at `start` leads when nothing visible precedes it, or nothing
      visible stands between it and the summary opener before it. */
  predicate IsLeading(s: string, start: nat)
    requires At(s, start, ANALYSIS_OPEN)
  {
    var sp := Find(s, SUMMARY_OPEN);
    if sp.Some? then
      if start < sp.value then true
      else
        OpenersApart(s, sp.value, start);
        Trim(s[sp.value + |SUMMARY_OPEN|..start]) == ""
    else Trim(s[..start]) == ""
  }

  lemma OpenersApart(s: string, i: nat, j: nat)
    requires At(s, i, SUMMARY_OPEN) && At(s, j, ANALYSIS_OPEN) && i <= j
    ensures i + |SUMMARY_OPEN| <= j
  {
    TokensAreTokens();
    hide SUMMARY_OPEN, ANALYSIS_OPEN;
    AtChars(s, i, SUMMARY_OPEN);
    AtChars(s, j, ANALYSIS_OPEN);
    if i < j {
      TagsApart(s, i, SUMMARY_OPEN, j, ANALYSIS_OPEN);
    }
  }

  /** Where the text behind an unclosed scratchpad opener resumes. */
  function ResumeAt(s: string, start: nat): (d: nat)
    requires start <= |s|
    ensures start <= d <= |s|
  {
    var rel := Find(s[start..], SUMMARY_OPEN);
    if rel.Some? then start + rel.value else |s|
  }

  function Peeled(s: string): string
    decreases |s|
  {
    var start := Find(s, ANALYSIS_OPEN);
    if start.None? || !IsLeading(s, start.value) then s
    else
      var rel := Find(s[start.value..], ANALYSIS_CLOSE);
      if rel.Some? then Peeled(s[..start.value] + s[start.value + rel.value + |ANALYSIS_CLOSE|..])
      else s[..start.value] + s[ResumeAt(s, start.value)..]
  }

  // ---- step 2: the summary block ----

  predicate IsDecoration(c: char) {
    c in {'#', '*', '-', '>', ' ', '\t'}
  }

  predicate IsAsciiDigit(c: char) {
    '0' <= c <= '9'
  }

  function TrimStart(s: string): string {
    TrimStartBy(s, IsWhitespace)
  }

  /** The block starts, behind markdown decoration, with a digit. */
  predicate Numbered(s: string) {
    var lead := TrimStartBy(s, IsDecoration);
    lead != "" && IsAsciiDigit(lead[0])
  }

  function StripLeadingScratchpad(inner: string): string {
    var s := Trim(inner);
    var pos := FindLast(s, ANALYSIS_CLOSE);
    var peeled := if !Numbered(s) && pos.Some? then TrimStart(s[pos.value + |ANALYSIS_CLOSE|..]) else s;
    if At(peeled, 0, SUMMARY_OPEN) then TrimStart(peeled[|SUMMARY_OPEN|..]) else peeled
  }

  lemma SummaryTagsApart(s: string, i: nat, j: nat)
    requires At(s, i, SUMMARY_OPEN) && At(s, j, SUMMARY_CLOSE) && i < j
    ensures i + |SUMMARY_OPEN| <= j
  {
    TokensAreTokens();
    hide SUMMARY_OPEN, SUMMARY_CLOSE;
    TagsApart(s, i, SUMMARY_OPEN, j, SUMMARY_CLOSE);
  }

  function Unwrapped(s: string): string {
    var start, end := Find(s, SUMMARY_OPEN), FindLast(s, SUMMARY_CLOSE);
    if start.Some? && end.Some? && end.value > start.value then
      SummaryTagsApart(s, start.value, end.value);
      var inner := StripLeadingScratchpad(Trim(s[start.value + |SUMMARY_OPEN|..end.value]));
      s[..start.value] + HEADING + inner + s[end.value + |SUMMARY_CLOSE|..]
    else s
  }

  // ---- step 3: echoed control tokens ----

  function Defused(t: string): string
    requires |t| > 0
  {
    ['<', ZERO_WIDTH_SPACE] + t[1..]
  }

  function Neutralized(text: string, tokens: seq<string>): string
    requires forall k :: 0 <= k < |tokens| ==> |tokens[k]| > 0
    decreases |tokens|
  {
    if tokens == [] then text
    else Neutralized(ReplaceAll(text, tokens[0], Defused(tokens[0])), tokens[1..])
  }

  function NeutralizeCompactionControlTokens(text: string): string {
    Neutralized(text, CONTROL_TOKENS)
  }

  // ---- step 4: blank lines ----

  const TRIPLE_NEWLINE := "\n\n\n"
  const DOUBLE_NEWLINE := "\n\n"

  /** `c` put before the squeezed `z`, unless that makes a third newline in a row. */
  function Put(c: char, z: string): string {
    if c == '\n' && At(z, 0, DOUBLE_NEWLINE) then z else [c] + z
  }

  /** `s` with every run of three or more newlines cut to two, and nothing else changed. */
  function Squeezed(s: string): string {
    if s == "" then "" else Put(s[0], Squeezed(s[1..]))
  }

  // ---- the whole ----

  function Formatted(summary: string): string {
    Trim(Squeezed(NeutralizeCompactionControlTokens(Unwrapped(Peeled(summary)))))
  }

  method FormatCompactSummary(summary: string) returns (r: string)
    ensures r == Formatted(summary)
  {
    hide *;
    var result := PeelLoop(summary);
    result := UnwrapBlock(result);
    result := NeutralizeCompactionControlTokens(result);
    result := CollapseLoop(result);
    r := Trim(result);
    FormattedUnfold(summary);
  }

  lemma FormattedUnfold(summary: string)
    ensures Formatted(summary) == Trim(Squeezed(NeutralizeCompactionControlTokens(Unwrapped(Peeled(summary)))))
  {
  }

  method UnwrapBlock(text: string) returns (result: string)
    ensures result == Unwrapped(text)
  {
    hide StripLeadingScratchpad, TrimBy;
    result := text;
    var start, end := Find(result, SUMMARY_OPEN), FindLast(result, SUMMARY_CLOSE);
    if start.Some? && end.Some? && end.value > start.value {
      SummaryTagsApart(result, start.value, end.value);
      var before, after := result[..start.value], result[end.value + |SUMMARY_CLOSE|..];
      var inner := StripLeadingScratchpad(Trim(result[start.value + |SUMMARY_OPEN|..end.value]));
      result := before + HEADING + inner + after;
    }
  }

  method PeelLoop(summary: string) returns (result: string)
    ensures result == Peeled(summary)
  {
    hide *;
    result := summary;
    var going := true;
    while going
      invariant going ==> Peeled(result) == Peeled(summary)
      invariant !going ==> result == Peeled(summary)
      decreases |result|, going
    {
      PeeledUnfold(result);
      CloserNonempty();
      var start := Find(result, ANALYSIS_OPEN);
      if start.None? || !IsLeading(result, start.value) {
        going := false;
      } else {
        var rel := Find(result[start.value..], ANALYSIS_CLOSE);
        if rel.Some? {
          result := result[..start.value] + result[start.value + rel.value + |ANALYSIS_CLOSE|..];
        } else {
          result := result[..start.value] + result[ResumeAt(result, start.value)..];
          going := false;
        }
      }
    }
  }

  lemma CloserNonempty()
    ensures |ANALYSIS_CLOSE| > 0
  {
  }

  lemma PeeledUnfold(s: string)
    ensures var start := Find(s, ANALYSIS_OPEN);
            if start.None? || !IsLeading(s, start.value) then Peeled(s) == s
            else
              var rel := Find(s[start.value..], ANALYSIS_CLOSE);
              if rel.Some? then
                start.value + rel.value + |ANALYSIS_CLOSE| <= |s|
                && Peeled(s) == Peeled(s[..start.value] + s[start.value + rel.value + |ANALYSIS_CLOSE|..])
              else Peeled(s) == s[..start.value] + s[ResumeAt(s, start.value)..]
  {
  }

  method CollapseLoop(text: string) returns (result: string)
    ensures result == Squeezed(text)
  {
    result := text;
    while Contains(result, TRIPLE_NEWLINE)
      invariant Squeezed(result) == Squeezed(text)
      decreases |result|
    {
      hide Squeezed, ReplaceAll, Contains;
      ReplaceShrinks(result);
      SqueezeReplaced(result);
      result := ReplaceAll(result, TRIPLE_NEWLINE, DOUBLE_NEWLINE);
    }
    SqueezedFixed(result);
  }

  lemma TripleHead(s: string)
    ensures At(s, 0, TRIPLE_NEWLINE) <==> |s| >= 3 && s[0] == '\n' && s[1] == '\n' && s[2] == '\n'
    ensures At(s, 0, DOUBLE_NEWLINE) <==> |s| >= 2 && s[0] == '\n' && s[1] == '\n'
  {
    if |s| >= 3 { assert s[0..3] == [s[0], s[1], s[2]]; }
    if |s| >= 2 { assert s[0..2] == [s[0], s[1]]; }
  }

  lemma {:induction false} ReplaceShrinks(s: string)
    ensures |ReplaceAll(s, TRIPLE_NEWLINE, DOUBLE_NEWLINE)| <= |s|
    ensures Contains(s, TRIPLE_NEWLINE) ==> |ReplaceAll(s, TRIPLE_NEWLINE, DOUBLE_NEWLINE)| < |s|
    decreases |s|
  {
    if s != "" {
      if At(s, 0, TRIPLE_NEWLINE) {
        ReplaceShrinks(s[3..]);
      } else {
        ReplaceShrinks(s[1..]);
        if i :| 0 <= i <= |s| && At(s, i, TRIPLE_NEWLINE) {
          AtSlice(s, 1, |s|, i - 1, TRIPLE_NEWLINE);
          assert s[1..|s|] == s[1..];
        }
      }
    }
  }

  /** Replacing triples does not change what the text squeezes to. */
  lemma {:induction false} SqueezeReplaced(s: string)
    ensures Squeezed(ReplaceAll(s, TRIPLE_NEWLINE, DOUBLE_NEWLINE)) == Squeezed(s)
    decreases |s|
  {
    if s != "" {
      hide ReplaceAll;
      ReplaceUnfold(s);
      TripleHead(s);
      if At(s, 0, TRIPLE_NEWLINE) {
        var rest := s[3..];
        var r := ReplaceAll(rest, TRIPLE_NEWLINE, DOUBLE_NEWLINE);
        SqueezeReplaced(rest);
        SqueezeTwo(r);
        SqueezeTwo(rest);
        assert s[1..] == DOUBLE_NEWLINE + rest;
      } else {
        var r := ReplaceAll(s[1..], TRIPLE_NEWLINE, DOUBLE_NEWLINE);
        SqueezeReplaced(s[1..]);
        assert ([s[0]] + r)[1..] == r;
      }
    }
  }

  lemma ReplaceUnfold(s: string)
    requires s != ""
    ensures ReplaceAll(s, TRIPLE_NEWLINE, DOUBLE_NEWLINE)
         == if At(s, 0, TRIPLE_NEWLINE) then DOUBLE_NEWLINE + ReplaceAll(s[3..], TRIPLE_NEWLINE, DOUBLE_NEWLINE)
            else [s[0]] + ReplaceAll(s[1..], TRIPLE_NEWLINE, DOUBLE_NEWLINE)
  {
  }

  lemma SqueezeTwo(x: string)
    ensures Squeezed(DOUBLE_NEWLINE + x) == Put('\n', Put('\n', Squeezed(x)))
    ensures At(Squeezed(DOUBLE_NEWLINE + x), 0, DOUBLE_NEWLINE)
  {
    var s := DOUBLE_NEWLINE + x;
    assert s[1..] == "\n" + x && ("\n" + x)[1..] == x;
    TripleHead(Squeezed(x));
    TripleHead(Put('\n', Squeezed(x)));
    TripleHead(Squeezed(s));
  }

  /** A text without triple newlines is squeezed already. */
  lemma {:induction false} SqueezedFixed(s: string)
    requires !Contains(s, TRIPLE_NEWLINE)
    ensures Squeezed(s) == s
  {
    if s != "" {
      if i :| 0 <= i <= |s[1..]| && At(s[1..], i, TRIPLE_NEWLINE) {
        AtSlice(s, 1, |s|, i, TRIPLE_NEWLINE);
        assert At(s, i + 1, TRIPLE_NEWLINE);
      }
      SqueezedFixed(s[1..]);
      TripleHead(s);
      TripleHead(s[1..]);
      assert !At(s, 0, TRIPLE_NEWLINE);
    }
  }

  lemma {:induction false} SqueezedHasNoTriple(s: string)
    ensures !Contains(Squeezed(s), TRIPLE_NEWLINE)
  {
    if s != "" {
      var z := Squeezed(s[1..]);
      SqueezedHasNoTriple(s[1..]);
      var r := Put(s[0], z);
      TripleHead(r);
      TripleHead(z);
      forall i | 0 <= i <= |r| ensures !At(r, i, TRIPLE_NEWLINE) {
        if r != z && i > 0 {
          AtSlice(r, 1, |r|, i - 1, TRIPLE_NEWLINE);
          assert r[1..|r|] == z;
        }
      }
    }
  }
}
