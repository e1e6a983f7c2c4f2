/** What `format_compact_summary` guarantees of its output, for every input:
    no live control token, no blank-line run, trimmed; so it is a fixpoint. */
module CleanSummary {
  import opened Options
  import opened Text
  import opened CompactSummary

  /** No control token, no run of three newlines, no outer whitespace. */
  predicate Clean(s: string) {
    (forall t :: t in CONTROL_TOKENS ==> !Contains(s, t)) && !Contains(s, TRIPLE_NEWLINE) && Trimmed(s)
  }

  lemma TailContains(s: string, a: nat, t: string)
    requires a <= |s| && Contains(s[a..], t)
    ensures Contains(s, t)
  {
    assert s[a..|s|] == s[a..];
    SliceContains(s, a, |s|, t);
  }

  // ---- defusing one token ----

  lemma ReplaceStep(s: string, t: string)
    requires t != ""
    ensures s == "" ==> ReplaceAll(s, t, Defused(t)) == ""
    ensures s != "" && At(s, 0, t) ==>
              |t| <= |s| && ReplaceAll(s, t, Defused(t)) == Defused(t) + ReplaceAll(s[|t|..], t, Defused(t))
    ensures s != "" && !At(s, 0, t) ==> ReplaceAll(s, t, Defused(t)) == [s[0]] + ReplaceAll(s[1..], t, Defused(t))
  {
    hide Defused;
  }

  lemma TokenChars(t: string)
    requires IsToken(t)
    ensures |t| >= 2 && t[0] == '<' && t[1] != ZERO_WIDTH_SPACE
    ensures forall k :: 1 <= k < |t| ==> t[k] != '<'
    ensures forall k :: 0 <= k < |t| ==> t[k] != '\n'
    ensures |Defused(t)| == |t| + 1 && Defused(t)[0] == '<' && Defused(t)[1] == ZERO_WIDTH_SPACE
    ensures forall k :: 1 <= k < |Defused(t)| ==> Defused(t)[k] != '<'
  {
  }

  /** Up to the first `<`, defusing changes nothing. */
  lemma {:induction false} DefusedPrefix(s: string, t: string, n: nat)
    requires IsToken(t) && |t| > 0 && n <= |ReplaceAll(s, t, Defused(t))|
    requires forall k :: 0 <= k < n ==> ReplaceAll(s, t, Defused(t))[k] != '<'
    ensures n <= |s| && s[..n] == ReplaceAll(s, t, Defused(t))[..n]
    decreases |s|
  {
    hide *;
    var w := ReplaceAll(s, t, Defused(t));
    TokenChars(t);
    ReplaceStep(s, t);
    if n > 0 {
      assert w[0] != '<';
      var v := ReplaceAll(s[1..], t, Defused(t));
      assert forall k :: 0 <= k < n - 1 ==> v[k] == w[k + 1];
      DefusedPrefix(s[1..], t, n - 1);
      ConsPrefix(s, w, v, n);
    }
  }

  /** Defusing `t` creates no token, and leaves none that is `t`. */
  lemma {:induction false} DefusingCreatesNone(s: string, t: string, u: string, i: int)
    requires IsToken(t) && |t| > 0 && IsToken(u) && At(ReplaceAll(s, t, Defused(t)), i, u)
    ensures u != t && Contains(s, u)
    decreases |s|
  {
    AtInside(ReplaceAll(s, t, Defused(t)), i, u);
    hide *;
    var d := Defused(t);
    var w := ReplaceAll(s, t, d);
    TokenChars(t);
    TokenChars(u);
    AtChars(w, i, u);
    ReplaceStep(s, t);
    assert w[i] == '<' && w[i + 1] != ZERO_WIDTH_SPACE;
    if At(s, 0, t) {
      var rest := ReplaceAll(s[|t|..], t, d);
      assert forall k :: 0 <= k < |d| ==> w[k] == d[k];
      assert i >= |d|;
      AtConcat(d, rest, i, u);
      DefusingCreatesNone(s[|t|..], t, u, i - |d|);
      TailContains(s, |t|, u);
    } else {
      var rest := ReplaceAll(s[1..], t, d);
      if i > 0 {
        AtConcat([s[0]], rest, i, u);
        DefusingCreatesNone(s[1..], t, u, i - 1);
        TailContains(s, 1, u);
      } else {
        assert forall k :: 0 <= k < |u| - 1 ==> rest[k] == w[k + 1];
        DefusedPrefix(s[1..], t, |u| - 1);
        ConsPrefix(s, w, rest, |u|);
        AtSamePrefix(s, w, u);
      }
    }
  }

  /** Defusing the tokens in turn leaves none of them, and brings back none that was absent. */
  lemma {:induction false} NeutralizedHasNone(text: string, tokens: seq<string>, u: string)
    requires forall k :: 0 <= k < |tokens| ==> |tokens[k]| > 0 && IsToken(tokens[k])
    requires IsToken(u) && (u in tokens || !Contains(text, u))
    ensures !Contains(Neutralized(text, tokens), u)
    decreases |tokens|
  {
    if tokens != [] {
      var t := tokens[0];
      var once := ReplaceAll(text, t, Defused(t));
      if i :| 0 <= i <= |once| && At(once, i, u) {
        DefusingCreatesNone(text, t, u, i);
      }
      assert u == t || u in tokens[1..] || !Contains(once, u);
      assert u == t ==> !Contains(once, u);
      NeutralizedHasNone(once, tokens[1..], u);
    }
  }

  // ---- collapsing newlines ----

  lemma SqueezeStep(s: string)
    ensures s == "" ==> Squeezed(s) == ""
    ensures s != "" ==> Squeezed(s) == [s[0]] + Squeezed(s[1..])
                        || (Squeezed(s) == Squeezed(s[1..]) && At(Squeezed(s), 0, DOUBLE_NEWLINE))
  {
    hide At;
  }

  /** Up to the first newline, collapsing changes nothing. */
  lemma {:induction false} SqueezedPrefix(s: string, n: nat)
    requires n <= |Squeezed(s)| && forall k :: 0 <= k < n ==> Squeezed(s)[k] != '\n'
    ensures n <= |s| && s[..n] == Squeezed(s)[..n]
  {
    hide *;
    SqueezeStep(s);
    TripleHead(Squeezed(s));
    if n > 0 {
      var w, v := Squeezed(s), Squeezed(s[1..]);
      assert w[0] != '\n';
      assert forall k :: 0 <= k < n - 1 ==> v[k] == w[k + 1];
      SqueezedPrefix(s[1..], n - 1);
      ConsPrefix(s, w, v, n);
    }
  }

  /** Collapsing newlines creates no token. */
  lemma {:induction false} SqueezingCreatesNone(s: string, u: string, i: int)
    requires IsToken(u) && At(Squeezed(s), i, u)
    ensures Contains(s, u)
  {
    AtInside(Squeezed(s), i, u);
    hide *;
    var w := Squeezed(s);
    AtChars(w, i, u);
    TokenChars(u);
    SqueezeStep(s);
    var rest := Squeezed(s[1..]);
    if w == rest {
      SqueezingCreatesNone(s[1..], u, i);
      TailContains(s, 1, u);
      return;
    }
    assert w == [s[0]] + rest;
    if i > 0 {
      AtConcat([s[0]], rest, i, u);
      SqueezingCreatesNone(s[1..], u, i - 1);
      TailContains(s, 1, u);
    } else {
      assert forall k :: 0 <= k < |u| - 1 ==> rest[k] == w[k + 1];
      SqueezedPrefix(s[1..], |u| - 1);
      ConsPrefix(s, w, rest, |u|);
      AtSamePrefix(s, w, u);
    }
  }

  // ---- the output is clean, and clean texts are exactly the fixpoints ----

  /** For every input, none of the six tokens, no triple newline, nothing to trim. */
  lemma FormattedIsClean(summary: string)
    ensures Clean(Formatted(summary))
  {
    hide Peeled, Unwrapped, Neutralized, Squeezed, Contains, TrimBy, Find, FindLast;
    TokensAreTokens();
    var text := Unwrapped(Peeled(summary));
    var n := Neutralized(text, CONTROL_TOKENS);
    var q := Squeezed(n);
    var r := Formatted(summary);
    assert r == Trim(q);
    TrimmedIsFixed(q, IsWhitespace);
    var a, b := TrimParts(q, IsWhitespace);
    assert r == q[a..b];
    SqueezedHasNoTriple(n);
    if Contains(r, TRIPLE_NEWLINE) { SliceContains(q, a, b, TRIPLE_NEWLINE); }
    forall t | t in CONTROL_TOKENS ensures !Contains(r, t) {
      NeutralizedHasNone(text, CONTROL_TOKENS, t);
      if Contains(r, t) {
        SliceContains(q, a, b, t);
        var i := Occurrence(q, t);
        SqueezingCreatesNone(n, t, i);
      }
    }
  }

  lemma Occurrence(s: string, t: string) returns (i: int)
    requires Contains(s, t)
    ensures At(s, i, t)
  {
    i :| At(s, i, t);
  }

  lemma {:induction false} ReplaceAbsent(s: string, t: string)
    requires t != "" && !Contains(s, t)
    ensures ReplaceAll(s, t, Defused(t)) == s
    decreases |s|
  {
    hide *;
    ReplaceStep(s, t);
    if s != "" {
      NotAtStart(s, t);
      if Contains(s[1..], t) { TailContains(s, 1, t); }
      ReplaceAbsent(s[1..], t);
    }
  }

  lemma NotAtStart(s: string, t: string)
    requires !Contains(s, t)
    ensures !At(s, 0, t)
  {
  }

  lemma {:induction false} NeutralizeAbsent(text: string, tokens: seq<string>)
    requires forall k :: 0 <= k < |tokens| ==> |tokens[k]| > 0 && IsToken(tokens[k]) && !Contains(text, tokens[k])
    ensures Neutralized(text, tokens) == text
    decreases |tokens|
  {
    if tokens != [] {
      ReplaceAbsent(text, tokens[0]);
      NeutralizeAbsent(text, tokens[1..]);
    }
  }

  /** Only clean texts pass unchanged, and all of them do. */
  lemma CleanIsFixpoint(s: string)
    ensures Formatted(s) == s <==> Clean(s)
  {
    hide *;
    FormattedIsClean(s);
    if Clean(s) {
      NothingToPeel(s);
      CleanUnfold(s);
      FormattedUnfold(s);
    }
  }

  lemma NothingToPeel(s: string)
    requires Clean(s)
    ensures Peeled(s) == s && Unwrapped(s) == s
  {
    hide Contains, Find, FindLast;
    assert ANALYSIS_OPEN in CONTROL_TOKENS && SUMMARY_OPEN in CONTROL_TOKENS;
    hide ANALYSIS_OPEN, SUMMARY_OPEN, CONTROL_TOKENS;
    assert Find(s, ANALYSIS_OPEN).None? && Find(s, SUMMARY_OPEN).None?;
  }

  /** Clean text passes the later steps unchanged. */
  lemma CleanUnfold(s: string)
    requires Clean(s)
    ensures Trim(Squeezed(NeutralizeCompactionControlTokens(s))) == s
  {
    hide Squeezed, Neutralized, Contains, TrimBy;
    TokensAreTokens();
    NeutralizeAbsent(s, CONTROL_TOKENS);
    SqueezedFixed(s);
    TrimmedIsFixed(s, IsWhitespace);
  }

  const MIN_SUMMARY_SEED_CHARS: nat := 500

  predicate IsDegenerateSummary(raw: string) {
    |Formatted(raw)| < MIN_SUMMARY_SEED_CHARS
  }

  /** Cleaning twice is cleaning once, and the verdict is the same on raw and cleaned text. */
  lemma FormatIdempotent(raw: string)
    ensures Formatted(Formatted(raw)) == Formatted(raw)
    ensures IsDegenerateSummary(Formatted(raw)) <==> IsDegenerateSummary(raw)
  {
    hide Formatted, Clean;
    FormattedIsClean(raw);
    CleanIsFixpoint(Formatted(raw));
  }

  // ---- real sections are never cut ----

  function Wrapped(body: string): string {
    SUMMARY_OPEN + body + SUMMARY_CLOSE
  }

  /** Where a numbered block's digit stands: only padding and decoration before it. */
  lemma DigitOf(body: string) returns (d: nat)
    requires Numbered(Trim(body))
    ensures d < |body| && IsAsciiDigit(body[d])
    ensures forall k :: 0 <= k < d ==> body[k] != '<'
    ensures Trim(body) != "" && Trim(body)[0] != '<'
  {
    hide TrimBy, TrimStartBy;
    var a, b := TrimParts(body, IsWhitespace);
    var m := body[a..b];
    var lead := TrimStartBy(m, IsDecoration);
    d := a + |m| - |lead|;
    assert lead == m[|m| - |lead|..];
    assert forall k :: 0 <= k < |m| ==> m[k] == body[a + k];
    assert body[d] == lead[0];
    forall k | 0 <= k < d ensures body[k] != '<' {
      if a <= k {
        assert body[k] == m[k - a];
        assert IsDecoration(m[k - a]);
      }
    }
  }

  /** Text with something visible in it does not trim to nothing. */
  lemma VisibleSurvives(s: string, d: nat)
    requires d < |s| && !IsWhitespace(s[d])
    ensures Trim(s) != ""
  {
    hide TrimBy;
    var a, b := TrimParts(s, IsWhitespace);
  }

  lemma WrappedPieces(body: string)
    ensures var s, n := Wrapped(body), |SUMMARY_OPEN| + |body|;
            At(s, 0, SUMMARY_OPEN) && At(s, n, SUMMARY_CLOSE) && n + |SUMMARY_CLOSE| == |s|
            && s[|SUMMARY_OPEN|..n] == body
            && forall k :: 0 <= k < |body| ==> s[|SUMMARY_OPEN| + k] == body[k]
  {
    hide SUMMARY_OPEN, SUMMARY_CLOSE;
    var s := Wrapped(body);
    assert "" + SUMMARY_OPEN + (body + SUMMARY_CLOSE) == s == SUMMARY_OPEN + body + SUMMARY_CLOSE;
    Pieces("", SUMMARY_OPEN, body + SUMMARY_CLOSE);
    Pieces(SUMMARY_OPEN + body, SUMMARY_CLOSE, "");
    assert SUMMARY_OPEN + body + SUMMARY_CLOSE + "" == s;
  }

  lemma NumberedBodyNotPeeled(body: string)
    requires Numbered(Trim(body))
    ensures Peeled(Wrapped(body)) == Wrapped(body)
  {
    hide *;
    WrappedPieces(body);
    var s := Wrapped(body);
    var start := Find(s, ANALYSIS_OPEN);
    PeeledUnfold(s);
    if start.Some? {
      NothingLeads(body, start.value);
    }
  }

  /** A scratchpad opener in a numbered body has the number before it. */
  lemma NothingLeads(body: string, p: nat)
    requires Numbered(Trim(body)) && At(Wrapped(body), p, ANALYSIS_OPEN)
    ensures !IsLeading(Wrapped(body), p)
  {
    hide Numbered, TrimBy, Find, SUMMARY_OPEN, SUMMARY_CLOSE, ANALYSIS_OPEN, Wrapped;
    var s := Wrapped(body);
    TokensAreTokens();
    WrappedPieces(body);
    FindIs(s, SUMMARY_OPEN, 0);
    var d := DigitOf(body);
    OpenersApart(s, 0, p);
    AtChars(s, p, ANALYSIS_OPEN);
    assert s[p] == '<';
    assert p - 9 < |body| ==> body[p - 9] == s[p];
    assert s[9 + d] == body[d];
    assert p > 9 + d;
    var between := s[|SUMMARY_OPEN|..p];
    assert between[d] == body[d];
    VisibleSurvives(between, d);
  }

  lemma NumberedNotStripped(body: string)
    requires Numbered(Trim(body))
    ensures StripLeadingScratchpad(Trim(body)) == Trim(body)
  {
    hide *;
    var t := Trim(body);
    NotAnOpener(body);
    TrimTwice(body);
    StripNumbered(t);
  }

  lemma TrimTwice(s: string)
    ensures Trim(Trim(s)) == Trim(s)
  {
    hide TrimBy;
    TrimmedIsFixed(s, IsWhitespace);
    TrimmedIsFixed(Trim(s), IsWhitespace);
  }

  lemma NotAnOpener(body: string)
    requires Numbered(Trim(body))
    ensures !At(Trim(body), 0, SUMMARY_OPEN)
  {
    TokensAreTokens();
    hide *;
    var d := DigitOf(body);
    if At(Trim(body), 0, SUMMARY_OPEN) {
      AtChars(Trim(body), 0, SUMMARY_OPEN);
      TokenChars(SUMMARY_OPEN);
    }
  }

  lemma StripNumbered(inner: string)
    requires Numbered(Trim(inner)) && !At(Trim(inner), 0, SUMMARY_OPEN)
    ensures StripLeadingScratchpad(inner) == Trim(inner)
  {
    hide Numbered, TrimBy, FindLast, At;
  }

  lemma UnwrappedUnfold(s: string, start: nat, end: nat)
    requires Find(s, SUMMARY_OPEN) == Some(start) && FindLast(s, SUMMARY_CLOSE) == Some(end) && end > start
    ensures start + |SUMMARY_OPEN| <= end <= end + |SUMMARY_CLOSE| <= |s|
    ensures Unwrapped(s) == s[..start] + HEADING + StripLeadingScratchpad(Trim(s[start + |SUMMARY_OPEN|..end]))
                            + s[end + |SUMMARY_CLOSE|..]
  {
    hide StripLeadingScratchpad, TrimBy, SUMMARY_OPEN, SUMMARY_CLOSE, HEADING;
    SummaryTagsApart(s, start, end);
  }

  lemma NumberedBodyUnwrapped(body: string)
    requires Numbered(Trim(body))
    ensures Unwrapped(Wrapped(body)) == HEADING + Trim(body)
  {
    hide *;
    var s, t, end := Wrapped(body), Trim(body), |SUMMARY_OPEN| + |body|;
    NumberedNotStripped(body);
    OpenerNonempty();
    WrappedPieces(body);
    FindIs(s, SUMMARY_OPEN, 0);
    LastAtEnd(s, SUMMARY_CLOSE);
    UnwrappedUnfold(s, 0, end);
    assert s[..0] == "" && s[end + |SUMMARY_CLOSE|..] == "";
    assert "" + HEADING + t + "" == HEADING + t;
  }

  lemma OpenerNonempty()
    ensures |SUMMARY_OPEN| > 0
  {
  }

  lemma LastAtEnd(s: string, t: string)
    requires |t| <= |s| && At(s, |s| - |t|, t)
    ensures FindLast(s, t) == Some(|s| - |t|)
  {
    assert Contains(s, t);
  }

  /** A body that starts with a number is never cut, whatever tags it echoes. */
  lemma NumberedBodyKept(body: string)
    requires Numbered(Trim(body))
    ensures Formatted(Wrapped(body))
         == Trim(Squeezed(NeutralizeCompactionControlTokens(HEADING + Trim(body))))
  {
    hide *;
    NumberedBodyNotPeeled(body);
    NumberedBodyUnwrapped(body);
    FormattedUnfold(Wrapped(body));
  }

  /** And it is kept to the letter when it echoes no token and has no blank-line run. */
  lemma NumberedBodyVerbatim(body: string)
    requires Numbered(Trim(body))
    requires forall t :: t in CONTROL_TOKENS ==> !Contains(body, t)
    requires !Contains(body, TRIPLE_NEWLINE)
    ensures Formatted(Wrapped(body)) == HEADING + Trim(body)
  {
    var r := HEADING + Trim(body);
    assert Clean(r) by { HeadedIsClean(body); }
    hide *;
    NumberedBodyKept(body);
    CleanIsFixpoint(r);
    CleanUnfold(r);
  }

  lemma HeadedIsClean(body: string)
    requires Trim(body) != ""
    requires forall t :: t in CONTROL_TOKENS ==> !Contains(body, t)
    requires !Contains(body, TRIPLE_NEWLINE)
    ensures Clean(HEADING + Trim(body))
  {
    TokensAreTokens();
    var m := Trim(body);
    var r := HEADING + m;
    assert Trimmed(r) by {
      hide TrimBy;
      TrimmedIsFixed(body, IsWhitespace);
      assert r[0] == 'S' && r[|r| - 1] == m[|m| - 1];
    }
    hide TrimBy, Contains;
    forall t | t in CONTROL_TOKENS ensures !Contains(r, t) {
      if Contains(r, t) { HeadedOccurrence(body, t); }
    }
    if Contains(r, TRIPLE_NEWLINE) { HeadedOccurrence(body, TRIPLE_NEWLINE); }
  }

  /** A token or newline run found in the headed body stood in the body. */
  lemma HeadedOccurrence(body: string, t: string)
    requires Trim(body) != "" && Contains(HEADING + Trim(body), t) && (IsToken(t) || t == TRIPLE_NEWLINE)
    ensures Contains(body, t)
  {
    hide *;
    var m := Trim(body);
    TrimmedStart(body);
    var i := Occurrence(HEADING + m, t);
    BeyondHeading(m, t, i);
    Occurs(m, i - |HEADING|, t);
    TrimContains(body, t);
  }

  lemma TrimmedStart(s: string)
    ensures Trim(s) != "" ==> Trim(s)[0] != '\n'
  {
    hide TrimBy;
    TrimmedIsFixed(s, IsWhitespace);
  }

  lemma TrimContains(s: string, t: string)
    requires Contains(Trim(s), t)
    ensures Contains(s, t)
  {
    hide TrimBy, Contains;
    var a, b := TrimParts(s, IsWhitespace);
    SliceContains(s, a, b, t);
  }

  /** No token or newline run starts in the heading. */
  lemma BeyondHeading(m: string, t: string, i: int)
    requires m != "" && m[0] != '\n' && At(HEADING + m, i, t) && (IsToken(t) || t == TRIPLE_NEWLINE)
    ensures i >= |HEADING| && At(m, i - |HEADING|, t)
  {
    var r := HEADING + m;
    AtInside(r, i, t);
    AtChars(r, i, t);
    AtConcat(HEADING, m, i, t);
    assert forall k :: 0 <= k < 9 ==> r[k] == HEADING[k];
    assert r[9] == m[0];
    hide At;
    assert r[i] == t[0] && r[i + 1] == t[1];
  }

  // ---- scratchpad is always dropped ----

  function Scratchpad(notes: string): string {
    ANALYSIS_OPEN + notes + ANALYSIS_CLOSE
  }

  /** A leading scratchpad block vanishes, whatever it holds besides its own closer
      and whatever follows it. */
  lemma LeadingScratchpadDropped(notes: string, rest: string)
    requires !Contains(notes, ANALYSIS_CLOSE)
    ensures Formatted(Scratchpad(notes) + rest) == Formatted(rest)
  {
    hide *;
    var s := Scratchpad(notes) + rest;
    ScratchpadPieces(notes, rest);
    var end := |ANALYSIS_OPEN| + |notes|;
    FindIs(s, ANALYSIS_OPEN, 0);
    LeadingAtStart(s);
    assert s[0..] == s;
    forall j | 0 <= j < end ensures !At(s, j, ANALYSIS_CLOSE) {
      if At(s, j, ANALYSIS_CLOSE) { FirstCloser(notes, rest, j); }
    }
    FindIs(s, ANALYSIS_CLOSE, end);
    PeeledUnfold(s);
    assert s[..0] + s[end + |ANALYSIS_CLOSE|..] == rest;
    FormattedUnfold(s);
    FormattedUnfold(rest);
  }

  lemma ScratchpadPieces(notes: string, rest: string)
    ensures var s, n := Scratchpad(notes) + rest, |ANALYSIS_OPEN| + |notes|;
            At(s, 0, ANALYSIS_OPEN) && At(s, n, ANALYSIS_CLOSE) && n + |ANALYSIS_CLOSE| <= |s|
            && s[|ANALYSIS_OPEN|..n] == notes && s[n + |ANALYSIS_CLOSE|..] == rest
  {
    hide ANALYSIS_OPEN, ANALYSIS_CLOSE;
    var s := Scratchpad(notes) + rest;
    Pieces("", ANALYSIS_OPEN, notes + ANALYSIS_CLOSE + rest);
    Pieces(ANALYSIS_OPEN + notes, ANALYSIS_CLOSE, rest);
    assert "" + ANALYSIS_OPEN + (notes + ANALYSIS_CLOSE + rest) == s == ANALYSIS_OPEN + notes + ANALYSIS_CLOSE + rest;
  }

  lemma LeadingAtStart(s: string)
    requires At(s, 0, ANALYSIS_OPEN)
    ensures IsLeading(s, 0)
  {
    TokensAreTokens();
    TrimmedIsFixed("", IsWhitespace);
    hide Find, TrimBy, SUMMARY_OPEN, ANALYSIS_OPEN;
    assert s[..0] == "";
    var sp := Find(s, SUMMARY_OPEN);
    if sp.Some? {
      AtChars(s, sp.value, SUMMARY_OPEN);
      AtChars(s, 0, ANALYSIS_OPEN);
      assert s[1] == 'a';
      assert s[sp.value + 1] == 's';
      assert sp.value != 0;
    }
  }

  lemma FirstCloser(notes: string, rest: string, j: nat)
    requires !Contains(notes, ANALYSIS_CLOSE)
    requires At(Scratchpad(notes) + rest, j, ANALYSIS_CLOSE)
    ensures j >= |ANALYSIS_OPEN| + |notes|
  {
    var s := Scratchpad(notes) + rest;
    var end := |ANALYSIS_OPEN| + |notes|;
    TokensAreTokens();
    ScratchpadPieces(notes, rest);
    hide ANALYSIS_OPEN, ANALYSIS_CLOSE, Scratchpad;
    if j < end {
      TagsApart(s, j, ANALYSIS_CLOSE, end, ANALYSIS_CLOSE);
      AtChars(s, 0, ANALYSIS_OPEN);
      AtChars(s, j, ANALYSIS_CLOSE);
      assert s[j + 1] == '/';
      assert s[1] == 'a';
      assert j > 0;
      TagsApart(s, 0, ANALYSIS_OPEN, j, ANALYSIS_CLOSE);
      AtSlice(s, |ANALYSIS_OPEN|, end, j - |ANALYSIS_OPEN|, ANALYSIS_CLOSE);
    }
  }
}
