/** The drafting scratchpad that no `<analysis>` opens: a header of an unnumbered summary block,
    ended by an orphan closer. */
module UntaggedScratchpad {
  import opened Options
  import opened Text
  import opened CompactSummary
  import opened CleanSummary

  /** Notes, the orphan closer that ends them, and the summary proper. */
  function Headered(notes: string, body: string): string {
    notes + ANALYSIS_CLOSE + body
  }

  /** The text without a `<summary>` it starts with. */
  function WithoutWrapper(s: string): string {
    if At(s, 0, SUMMARY_OPEN) then TrimStart(s[|SUMMARY_OPEN|..]) else s
  }

  // ---- nothing is peeled off such a block ----

  /** An opener inside the wrapper stands inside the wrapped text. */
  lemma OpenerInBody(body: string, p: nat)
    requires At(Wrapped(body), p, ANALYSIS_OPEN)
    ensures p >= |SUMMARY_OPEN| && p - |SUMMARY_OPEN| + |ANALYSIS_OPEN| <= |body|
    ensures At(body, p - |SUMMARY_OPEN|, ANALYSIS_OPEN)
  {
    TokensAreTokens();
    hide SUMMARY_OPEN, SUMMARY_CLOSE, ANALYSIS_OPEN, Wrapped;
    WrappedPieces(body);
    var s, n := Wrapped(body), |SUMMARY_OPEN| + |body|;
    OpenersApart(s, 0, p);
    AtChars(s, p, ANALYSIS_OPEN);
    AtChars(s, n, SUMMARY_CLOSE);
    assert s[p + 1] == 'a' && s[n + 1] == '/';
    if p < n {
      TagsApart(s, p, ANALYSIS_OPEN, n, SUMMARY_CLOSE);
    } else {
      AtInside(s, p, ANALYSIS_OPEN);
    }
    AtSlice(s, |SUMMARY_OPEN|, n, p - |SUMMARY_OPEN|, ANALYSIS_OPEN);
  }

  /** Blanks before an opener: trimming them leaves the opener in front. */
  lemma BlanksBefore(s: string, q: nat, t: string)
    requires At(s, q, t) && t != "" && !IsWhitespace(t[0]) && AllMatch(s[..q], IsWhitespace)
    ensures At(TrimStart(s), 0, t)
  {
    hide TrimStartBy;
    AtChars(s, q, t);
    var d := |s| - |TrimStart(s)|;
    assert forall k :: 0 <= k < q ==> s[k] == s[..q][k];
    assert s[q] == t[0];
    assert d <= q;
    assert TrimStart(s) != "" ==> TrimStart(s)[0] == s[d];
    AtSlice(s, q, |s|, 0, t);
    assert s[q..|s|] == s[q..];
  }

  /** A block that does not start with an opener is not peeled. */
  lemma NotPeeled(body: string)
    requires !At(TrimStart(body), 0, ANALYSIS_OPEN)
    ensures Peeled(Wrapped(body)) == Wrapped(body)
  {
    hide *;
    var s := Wrapped(body);
    var start := Find(s, ANALYSIS_OPEN);
    PeeledUnfold(s);
    if start.Some? {
      var p := start.value;
      OpenerInBody(body, p);
      if IsLeading(s, p) {
        BlankInFront(body, p);
        BracketIsVisible();
        BlanksBefore(body, p - |SUMMARY_OPEN|, ANALYSIS_OPEN);
      }
    }
  }

  lemma BracketIsVisible()
    ensures ANALYSIS_OPEN != "" && !IsWhitespace(ANALYSIS_OPEN[0])
    ensures ANALYSIS_CLOSE != "" && !IsWhitespace(ANALYSIS_CLOSE[0]) && TagShaped(ANALYSIS_CLOSE)
    ensures !IsWhitespace(ANALYSIS_CLOSE[|ANALYSIS_CLOSE| - 1])
  {
  }

  lemma BlankInFront(body: string, p: nat)
    requires At(Wrapped(body), p, ANALYSIS_OPEN) && IsLeading(Wrapped(body), p)
    requires p >= |SUMMARY_OPEN| && p - |SUMMARY_OPEN| <= |body|
    ensures AllMatch(body[..p - |SUMMARY_OPEN|], IsWhitespace)
  {
    hide TrimBy, SUMMARY_OPEN, ANALYSIS_OPEN, SUMMARY_CLOSE, Wrapped;
    var s := Wrapped(body);
    OpenerNonempty();
    WrappedPieces(body);
    FindIs(s, SUMMARY_OPEN, 0);
    var between := s[|SUMMARY_OPEN|..p];
    assert between == body[..p - |SUMMARY_OPEN|];
    var a, b := TrimParts(between, IsWhitespace);
  }

  // ---- the header is dropped whole ----

  /** Trimming the block leaves the orphan whole. */
  lemma OrphanInside(notes: string, body: string) returns (a: nat, e: nat)
    ensures var b, l, r := Headered(notes, body), |notes|, |notes| + |ANALYSIS_CLOSE|;
            && a <= l && r <= e <= |b| && Trim(b) == b[a..e] && At(b, l, ANALYSIS_CLOSE) && b[r..] == body
            && (e > r ==> !IsWhitespace(b[e - 1])) && forall k :: e <= k < |b| ==> IsWhitespace(b[k])
  {
    hide ANALYSIS_CLOSE, TrimBy;
    BracketIsVisible();
    var b, l, r := Headered(notes, body), |notes|, |notes| + |ANALYSIS_CLOSE|;
    Pieces(notes, ANALYSIS_CLOSE, body);
    AtChars(b, l, ANALYSIS_CLOSE);
    a, e := TrimParts(b, IsWhitespace);
    assert b[l] == ANALYSIS_CLOSE[0] && b[r - 1] == ANALYSIS_CLOSE[|ANALYSIS_CLOSE| - 1];
    assert e > r ==> b[a..e][e - a - 1] == b[e - 1];
  }

  /** The last closer of the trimmed block is the orphan, and the blanks around it go. */
  lemma OrphanIsLast(notes: string, body: string)
    requires !Contains(body, ANALYSIS_CLOSE)
    ensures var s := Trim(Headered(notes, body)); var pos := FindLast(s, ANALYSIS_CLOSE);
            pos.Some? && pos.value + |ANALYSIS_CLOSE| <= |s|
            && TrimStart(s[pos.value + |ANALYSIS_CLOSE|..]) == Trim(body)
  {
    hide *;
    var b, l, r := Headered(notes, body), |notes|, |notes| + |ANALYSIS_CLOSE|;
    var a, e := OrphanInside(notes, body);
    var s := b[a..e];
    AtSlice(b, a, e, l - a, ANALYSIS_CLOSE);
    forall j: int | j > l - a ensures !At(s, j, ANALYSIS_CLOSE) {
      if At(s, j, ANALYSIS_CLOSE) { NoCloserBehind(notes, body, a, e, j); }
    }
    LastIs(s, ANALYSIS_CLOSE, l - a);
    TailOf(b, a, r, e, body);
    TrimmedTail(body, e - r);
  }

  lemma TailOf(b: string, a: nat, r: nat, e: nat, body: string)
    requires a <= r <= e <= |b| && b[r..] == body
    ensures b[a..e][r - a..] == body[..e - r]
    ensures forall k :: 0 <= k < |body| ==> body[k] == b[r + k]
  {
    SliceOfSlice(b, a, e, r - a, e - a);
    assert b[a..e][r - a..] == b[a..e][r - a..e - a];
    assert b[r..][..e - r] == b[r..e];
  }

  lemma NoCloserBehind(notes: string, body: string, a: nat, e: nat, j: int)
    requires a <= |notes| && |notes| + |ANALYSIS_CLOSE| <= e <= |Headered(notes, body)| && j > |notes| - a
    requires At(Headered(notes, body)[a..e], j, ANALYSIS_CLOSE)
    ensures Contains(body, ANALYSIS_CLOSE)
  {
    hide ANALYSIS_CLOSE;
    BracketIsVisible();
    var b, l, r := Headered(notes, body), |notes|, |notes| + |ANALYSIS_CLOSE|;
    Pieces(notes, ANALYSIS_CLOSE, body);
    AtSlice(b, a, e, j, ANALYSIS_CLOSE);
    TagsApart(b, l, ANALYSIS_CLOSE, a + j, ANALYSIS_CLOSE);
    assert b[r..|b|] == body;
    AtSlice(b, r, |b|, a + j - r, ANALYSIS_CLOSE);
    Occurs(body, a + j - r, ANALYSIS_CLOSE);
  }

  /** A text cut before its outer blanks needs no trimming at the end. */
  lemma TrimmedTail(s: string, n: nat)
    requires n <= |s| && (n > 0 ==> !IsWhitespace(s[n - 1])) && forall k :: n <= k < |s| ==> IsWhitespace(s[k])
    ensures TrimStart(s[..n]) == Trim(s)
  {
    hide TrimStartBy, TrimEndBy;
    var x := s[..n];
    var r := TrimStart(x);
    var d := |x| - |r|;
    assert s == s[..d] + r + s[n..];
    assert r != "" ==> r[|r| - 1] == s[n - 1];
    assert forall k :: 0 <= k < d ==> s[..d][k] == x[k];
    TrimIs(s[..d], r, s[n..], IsWhitespace);
  }

  lemma StripUnfold(inner: string)
    ensures var s := Trim(inner); var pos := FindLast(s, ANALYSIS_CLOSE);
            pos.Some? && !Numbered(s) ==>
              pos.value + |ANALYSIS_CLOSE| <= |s|
              && StripLeadingScratchpad(inner) == WithoutWrapper(TrimStart(s[pos.value + |ANALYSIS_CLOSE|..]))
  {
    hide Numbered, TrimBy, TrimStart, SUMMARY_OPEN, ANALYSIS_CLOSE;
  }

  lemma HeaderDropped(notes: string, body: string)
    requires !Contains(body, ANALYSIS_CLOSE) && !Numbered(Trim(Headered(notes, body)))
    ensures StripLeadingScratchpad(Trim(Headered(notes, body))) == WithoutWrapper(Trim(body))
  {
    hide *;
    TrimTwice(Headered(notes, body));
    OrphanIsLast(notes, body);
    StripUnfold(Trim(Headered(notes, body)));
  }

  lemma WrappedUnfold(body: string)
    ensures Unwrapped(Wrapped(body)) == HEADING + StripLeadingScratchpad(Trim(body))
  {
    hide *;
    var s, end := Wrapped(body), |SUMMARY_OPEN| + |body|;
    OpenerNonempty();
    WrappedPieces(body);
    FindIs(s, SUMMARY_OPEN, 0);
    LastAtEnd(s, SUMMARY_CLOSE);
    UnwrappedUnfold(s, 0, end);
    var inner := StripLeadingScratchpad(Trim(body));
    assert s[..0] == "" && s[end + |SUMMARY_CLOSE|..] == "";
    assert "" + HEADING + inner + "" == HEADING + inner;
  }

  /** In a block that does not start with a number the notes before the last closer are dropped
      whole, closers they quote included, and what follows is kept, but for a wrapper. */
  lemma UntaggedScratchpadDropped(notes: string, body: string)
    requires !At(TrimStart(Headered(notes, body)), 0, ANALYSIS_OPEN) && !Contains(body, ANALYSIS_CLOSE)
    requires !Numbered(Trim(Headered(notes, body)))
    ensures Formatted(Wrapped(Headered(notes, body)))
         == Trim(Squeezed(NeutralizeCompactionControlTokens(HEADING + WithoutWrapper(Trim(body)))))
  {
    hide *;
    NotPeeled(Headered(notes, body));
    WrappedUnfold(Headered(notes, body));
    HeaderDropped(notes, body);
    FormattedUnfold(Wrapped(Headered(notes, body)));
  }

  /** And to the letter, when it echoes no token and has no blank-line run. */
  lemma UntaggedScratchpadVerbatim(notes: string, body: string)
    requires !At(TrimStart(Headered(notes, body)), 0, ANALYSIS_OPEN) && !Numbered(Trim(Headered(notes, body)))
    requires Trim(body) != "" && !Contains(body, TRIPLE_NEWLINE)
    requires forall t :: t in CONTROL_TOKENS ==> !Contains(body, t)
    ensures Formatted(Wrapped(Headered(notes, body))) == HEADING + Trim(body)
  {
    var r := HEADING + Trim(body);
    assert Clean(r) by { HeadedIsClean(body); }
    TokensListed();
    hide *;
    UntaggedScratchpadDropped(notes, body);
    NoWrapper(body);
    CleanIsFixpoint(r);
    CleanUnfold(r);
  }

  lemma TokensListed()
    ensures ANALYSIS_CLOSE in CONTROL_TOKENS && SUMMARY_OPEN in CONTROL_TOKENS
  {
    assert CONTROL_TOKENS[1] == SUMMARY_OPEN && CONTROL_TOKENS[2] == ANALYSIS_CLOSE;
  }

  lemma NoWrapper(body: string)
    requires !Contains(body, SUMMARY_OPEN)
    ensures WithoutWrapper(Trim(body)) == Trim(body)
  {
    hide TrimBy, SUMMARY_OPEN, Contains, At;
    if At(Trim(body), 0, SUMMARY_OPEN) {
      Occurs(Trim(body), 0, SUMMARY_OPEN);
      TrimContains(body, SUMMARY_OPEN);
    }
  }
}
