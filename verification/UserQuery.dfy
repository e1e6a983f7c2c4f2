/** `strip_system_tags`, `extract_user_query` and `wrap_user_query`. */
module UserQuery {
  import opened Options
  import opened Text

  const SYSTEM_TAGS: seq<string> := [
    "user_info", "project_layout", "git_status", "fork-context", "system-reminder", "agent-memory",
    "system_reminder", "background_context", "command-name", "command-message", "command-args"
  ]

  const QUERY_OPEN := "<user_query>"
  const QUERY_CLOSE := "</user_query>"

  function Opener(tag: string): string { "<" + tag + ">" }

  function Closer(tag: string): string { "</" + tag + ">" }

  /** `s` without each stretch from the first opener of `tag` through the next closer. */
  function StripTag(s: string, tag: string): string
    decreases |s|
  {
    var start := Find(s, Opener(tag));
    if start.None? then s
    else
      var rel := Find(s[start.value..], Closer(tag));
      if rel.None? then s
      else StripTag(WithoutSpan(s, start.value, start.value + rel.value + |Closer(tag)|), tag)
  }

  function WithoutSpan(s: string, a: nat, b: nat): string
    requires a <= b <= |s|
  {
    s[..a] + s[b..]
  }

  function StripTags(s: string, tags: seq<string>): string
    decreases |tags|
  {
    if tags == [] then s else StripTags(StripTag(s, tags[0]), tags[1..])
  }

  function StripSystemTags(text: string): string {
    Trim(StripTags(text, SYSTEM_TAGS))
  }

  method StripSystemTagsLoop(text: string) returns (result: string)
    ensures result == StripSystemTags(text)
  {
    result := text;
    for t := 0 to |SYSTEM_TAGS|
      invariant StripTags(result, SYSTEM_TAGS[t..]) == StripTags(text, SYSTEM_TAGS)
    {
      hide StripTag, StripTags;
      var open, close := Opener(SYSTEM_TAGS[t]), Closer(SYSTEM_TAGS[t]);
      ghost var before := result;
      var going := true;
      while going
        invariant StripTag(result, SYSTEM_TAGS[t]) == StripTag(before, SYSTEM_TAGS[t])
        invariant !going ==> StripTag(result, SYSTEM_TAGS[t]) == result
        decreases |result|, going
      {
        StripTagUnfold(result, SYSTEM_TAGS[t]);
        var start := Find(result, open);
        if start.None? {
          going := false;
        } else {
          var rel := Find(result[start.value..], close);
          if rel.None? {
            going := false;
          } else {
            result := result[..start.value] + result[start.value + rel.value + |close|..];
          }
        }
      }
      StripTagsUnfold(before, t);
    }
    assert SYSTEM_TAGS[|SYSTEM_TAGS|..] == [];
    result := Trim(result);
  }

  lemma StripTagUnfold(s: string, tag: string)
    ensures var start := Find(s, Opener(tag));
            if start.None? then StripTag(s, tag) == s
            else
              var rel := Find(s[start.value..], Closer(tag));
              if rel.None? then StripTag(s, tag) == s
              else
                var end := start.value + rel.value + |Closer(tag)|;
                end <= |s| && StripTag(s, tag) == StripTag(s[..start.value] + s[end..], tag)
  {
  }

  lemma StripTagsUnfold(s: string, t: nat)
    requires t < |SYSTEM_TAGS|
    ensures StripTags(s, SYSTEM_TAGS[t..]) == StripTags(StripTag(s, SYSTEM_TAGS[t]), SYSTEM_TAGS[t + 1..])
  {
    hide SYSTEM_TAGS, StripTag;
    assert SYSTEM_TAGS[t..][1..] == SYSTEM_TAGS[t + 1..];
  }

  function ExtractUserQuery(text: string): string {
    var start := Find(text, QUERY_OPEN);
    if start.Some? then
      var rest := text[start.value + |QUERY_OPEN|..];
      var end := Find(rest, QUERY_CLOSE);
      if end.Some? then StripSystemTags(Trim(rest[..end.value])) else StripSystemTags(text)
    else StripSystemTags(text)
  }

  function WrapUserQuery(text: string): string {
    QUERY_OPEN + "\n" + text + "\n" + QUERY_CLOSE
  }

  // ---- the per-tag loop leaves no complete pair of its tag ----

  /** Some closer of `tag` at or after some opener of it. */
  predicate HasPair(s: string, tag: string) {
    exists i, j :: 0 <= i <= |s| && i <= j <= |s| && At(s, i, Opener(tag)) && At(s, j, Closer(tag))
  }

  /** The loop's exit tests are together the absence of a pair. */
  lemma LoopExitIsNoPair(s: string, tag: string)
    ensures (Find(s, Opener(tag)).None? || Find(s[Find(s, Opener(tag)).value..], Closer(tag)).None?)
       <==> !HasPair(s, tag)
  {
    var start := Find(s, Opener(tag));
    if start.Some? {
      var from := start.value;
      forall j | from <= j ensures At(s[from..], j - from, Closer(tag)) <==> At(s, j, Closer(tag)) {
        AtSlice(s, from, |s|, j - from, Closer(tag));
      }
      var rel := Find(s[from..], Closer(tag));
      if rel.Some? {
        assert At(s, from + rel.value, Closer(tag));
      }
    }
  }

  lemma {:induction false} StripTagLeavesNoPair(s: string, tag: string)
    ensures !HasPair(StripTag(s, tag), tag)
    ensures |StripTag(s, tag)| <= |s|
    ensures !HasPair(s, tag) ==> StripTag(s, tag) == s
    ensures HasPair(s, tag) ==> |StripTag(s, tag)| < |s|
    decreases |s|
  {
    hide HasPair, StripTag;
    LoopExitIsNoPair(s, tag);
    StripTagUnfold(s, tag);
    if HasPair(s, tag) {
      var from := Find(s, Opener(tag)).value;
      var end := from + Find(s[from..], Closer(tag)).value + |Closer(tag)|;
      StripTagLeavesNoPair(s[..from] + s[end..], tag);
    }
  }

  predicate NoPairs(s: string, tags: seq<string>) {
    forall t :: 0 <= t < |tags| ==> !HasPair(s, tags[t])
  }

  lemma {:induction false} StripTagsShrinks(s: string, tags: seq<string>)
    ensures |StripTags(s, tags)| <= |s|
    ensures |StripTags(s, tags)| == |s| <==> NoPairs(s, tags)
    ensures NoPairs(s, tags) ==> StripTags(s, tags) == s
    decreases |tags|
  {
    if tags != [] {
      hide HasPair, StripTag;
      StripTagLeavesNoPair(s, tags[0]);
      StripTagsShrinks(StripTag(s, tags[0]), tags[1..]);
      assert tags == [tags[0]] + tags[1..];
    }
  }

  /** Stripping leaves a text alone exactly when it is trimmed and holds no complete pair. */
  lemma StripSystemTagsFixed(s: string)
    ensures StripSystemTags(s) == s <==> Trimmed(s) && NoPairs(s, SYSTEM_TAGS)
    ensures |StripSystemTags(s)| <= |s|
  {
    hide SYSTEM_TAGS, StripTags, NoPairs, TrimBy;
    var mid := StripTags(s, SYSTEM_TAGS);
    StripTagsShrinks(s, SYSTEM_TAGS);
    var a, b := TrimParts(mid, IsWhitespace);
    TrimmedIsFixed(s, IsWhitespace);
  }

  // ---- wrapping and extracting ----

  lemma QueryTagsShaped()
    ensures TagShaped(QUERY_OPEN) && TagShaped(QUERY_CLOSE)
    ensures forall k :: 0 <= k < |QUERY_CLOSE| ==> QUERY_CLOSE[k] != '\n'
  {
  }

  lemma FoundBy(s: string, t: string, i: nat)
    requires At(s, i, t)
    ensures Find(s, t).Some? && Find(s, t).value <= i
  {
    hide Find;
    assert Contains(s, t);
  }

  /** A closer in `q` stands in the wrapped text, one place further. */
  lemma CloserCarried(q: string)
    requires Contains(q, QUERY_CLOSE)
    ensures Find("\n" + q + "\n" + QUERY_CLOSE, QUERY_CLOSE).Some?
    ensures Find("\n" + q + "\n" + QUERY_CLOSE, QUERY_CLOSE).value < |q|
  {
    var f :| 0 <= f <= |q| && At(q, f, QUERY_CLOSE);
    CloserIsLong();
    hide *;
    var rest := "\n" + q + "\n" + QUERY_CLOSE;
    AtInside(q, f, QUERY_CLOSE);
    assert rest == "\n" + (q + ("\n" + QUERY_CLOSE));
    AtConcat(q, "\n" + QUERY_CLOSE, f, QUERY_CLOSE);
    AtConcat("\n", q + ("\n" + QUERY_CLOSE), f + 1, QUERY_CLOSE);
    FoundBy(rest, QUERY_CLOSE, f + 1);
  }

  /** The first closer behind the wrapper's opener: the first in `q`, else the wrapper's own. */
  lemma FirstCloser(q: string)
    ensures var rest := "\n" + q + "\n" + QUERY_CLOSE;
            Find(rest, QUERY_CLOSE).Some?
            && (!Contains(q, QUERY_CLOSE) ==> Find(rest, QUERY_CLOSE).value == |q| + 2)
            && (Contains(q, QUERY_CLOSE) ==> Find(rest, QUERY_CLOSE).value < |q|)
  {
    hide *;
    QueryTagsShaped();
    var rest := "\n" + q + "\n" + QUERY_CLOSE;
    var last := |q| + 2;
    Pieces("\n" + q + "\n", QUERY_CLOSE, "");
    assert "\n" + q + "\n" + QUERY_CLOSE + "" == rest;
    FoundBy(rest, QUERY_CLOSE, last);
    var e := Find(rest, QUERY_CLOSE).value;
    if Contains(q, QUERY_CLOSE) {
      CloserCarried(q);
    } else if e < last {
      TagsApart(rest, e, QUERY_CLOSE, last, QUERY_CLOSE);
      CloserInside(q, rest, e);
    }
  }

  lemma CloserIsLong()
    ensures |QUERY_CLOSE| == 13
  {
  }

  lemma CloserInside(q: string, rest: string, e: nat)
    requires rest == "\n" + q + "\n" + QUERY_CLOSE
    requires At(rest, e, QUERY_CLOSE) && e + |QUERY_CLOSE| <= |q| + 2
    ensures At(q, e - 1, QUERY_CLOSE) && Contains(q, QUERY_CLOSE)
  {
    hide QUERY_CLOSE;
    QueryTagsShaped();
    CloserIsLong();
    AtChars(rest, e, QUERY_CLOSE);
    assert rest[0] == '\n' && rest[|q| + 1] == '\n';
    assert e != 0;
    assert e + |QUERY_CLOSE| != |q| + 2;
    assert rest[1..|q| + 1] == q;
    AtSlice(rest, 1, |q| + 1, e - 1, QUERY_CLOSE);
  }

  lemma ExtractOfWrap(q: string)
    ensures !Contains(q, QUERY_CLOSE) ==> ExtractUserQuery(WrapUserQuery(q)) == StripSystemTags(Trim(q))
    ensures Contains(q, QUERY_CLOSE) ==> |ExtractUserQuery(WrapUserQuery(q))| < |q|
  {
    hide QUERY_OPEN, QUERY_CLOSE, StripSystemTags, TrimBy;
    var text := WrapUserQuery(q);
    var rest := "\n" + q + "\n" + QUERY_CLOSE;
    assert text == QUERY_OPEN + rest;
    assert text[..|QUERY_OPEN|] == QUERY_OPEN && text[|QUERY_OPEN|..] == rest;
    assert At(text, 0, QUERY_OPEN);
    FirstCloser(q);
    var e := Find(rest, QUERY_CLOSE).value;
    var inner := rest[..e];
    if Contains(q, QUERY_CLOSE) {
      var a, b := TrimParts(inner, IsWhitespace);
      StripSystemTagsFixed(Trim(inner));
    } else {
      assert inner == "\n" + q + "\n";
      TrimAround(q);
    }
  }

  lemma TrimAround(q: string)
    ensures Trim("\n" + q + "\n") == Trim(q)
  {
    hide TrimBy;
    var a, b := TrimParts(q, IsWhitespace);
    var left, mid, right := "\n" + q[..a], q[a..b], q[b..] + "\n";
    assert "\n" + q + "\n" == left + mid + right;
    TrimIs(left, mid, right, IsWhitespace);
  }

  predicate RoundTrips(q: string) {
    Trimmed(q) && !Contains(q, QUERY_CLOSE) && NoPairs(q, SYSTEM_TAGS)
  }

  /** A query survives wrapping and extracting exactly when it is trimmed, holds no closing
      query tag and no complete system-tag pair. */
  lemma QueryRoundTrip(q: string)
    ensures ExtractUserQuery(WrapUserQuery(q)) == q <==> RoundTrips(q)
  {
    hide ExtractUserQuery, WrapUserQuery, StripSystemTags, NoPairs, SYSTEM_TAGS, QUERY_CLOSE, TrimBy;
    ExtractOfWrap(q);
    if !Contains(q, QUERY_CLOSE) {
      TrimmedIsFixed(q, IsWhitespace);
      StripSystemTagsFixed(q);
      StripSystemTagsFixed(Trim(q));
      var a, b := TrimParts(q, IsWhitespace);
    }
  }

  lemma OpenerAbsent(s: string, tag: string)
    requires tag != ""
    requires forall i :: 0 <= i < |s| - 1 && s[i] == '<' ==> s[i + 1] != tag[0]
    ensures forall i :: 0 <= i ==> !At(s, i, Opener(tag))
    ensures !HasPair(s, tag)
  {
    var open := Opener(tag);
    assert open[0] == '<' && open[1] == tag[0];
    forall i | 0 <= i ensures !At(s, i, open) {
      if At(s, i, open) {
        AtChars(s, i, open);
      }
    }
  }

  predicate PlainTag(tag: string) {
    tag != "" && tag[0] != '/' && forall k :: 0 <= k < |tag| ==> tag[k] != '<' && tag[k] != '>'
  }

  lemma TagsShaped(tag: string)
    requires PlainTag(tag)
    ensures TagShaped(Opener(tag)) && TagShaped(Closer(tag)) && |Closer(tag)| > 0
  {
  }

  /** A pair behind a text with no opener of its tag is cut out whole. */
  lemma StripFirstPair(a: string, b: string, tag: string)
    requires PlainTag(tag)
    requires forall i :: 0 <= i < |a| ==> !At(a + Opener(tag) + Closer(tag) + b, i, Opener(tag))
    ensures StripTag(a + Opener(tag) + Closer(tag) + b, tag) == StripTag(a + b, tag)
  {
    hide *;
    var open, close := Opener(tag), Closer(tag);
    var s, rest := a + open + close + b, open + close + b;
    TagsShaped(tag);
    Pieces(a, open, close + b);
    assert a + open + (close + b) == s;
    FindIs(s, open, |a|);
    assert s[|a|..] == rest;
    Pieces("", open, close + b);
    assert "" + open + (close + b) == rest;
    Pieces(open, close, b);
    forall i | 0 <= i < |open| ensures !At(rest, i, close) {
      if At(rest, i, close) {
        CloserBehindOpener(rest, i, tag);
      }
    }
    FindIs(rest, close, |open|);
    StripTagUnfold(s, tag);
    assert s[..|a|] + s[|a| + |open| + |close|..] == a + b;
  }

  lemma CloserBehindOpener(rest: string, i: nat, tag: string)
    requires PlainTag(tag) && At(rest, 0, Opener(tag)) && At(rest, i, Closer(tag))
    ensures |Opener(tag)| <= i
  {
    var open, close := Opener(tag), Closer(tag);
    AtChars(rest, 0, open);
    AtChars(rest, i, close);
    assert open[1] == tag[0] && close[1] == '/';
    if i > 0 {
      TagsApart(rest, 0, open, i, close);
    }
  }

  const LEFT := "<user_"
  const PAIR := "<git_status></git_status>"
  const RIGHT := "info></user_info>"

  /** Nesting a pair of one tag inside the opener of another. */
  function Nested(): string { LEFT + PAIR + RIGHT }

  lemma NestedChars()
    ensures forall i :: 0 <= i < |LEFT + RIGHT| - 1 && (LEFT + RIGHT)[i] == '<' ==>
              (i == 0 && (LEFT + RIGHT)[i + 1] == 'u') || (LEFT + RIGHT)[i + 1] == '/'
    ensures forall i :: 0 <= i < |Nested()| - 1 && Nested()[i] == '<' ==>
              (i == 0 && Nested()[i + 1] == 'u') || (i == 6 && Nested()[i + 1] == 'g') || Nested()[i + 1] == '/'
  {
    assert forall i :: 0 <= i < |LEFT| ==> LEFT[i] == '<' ==> i == 0;
    assert forall i :: 0 <= i < |PAIR| ==> PAIR[i] == '<' ==> i == 0 || (i == 12 && PAIR[i + 1] == '/');
    assert forall i :: 0 <= i < |RIGHT| ==> RIGHT[i] == '<' ==> RIGHT[i + 1] == '/';
    assert forall i :: 0 <= i < |LEFT + RIGHT| ==>
        (LEFT + RIGHT)[i] == if i < 6 then LEFT[i] else RIGHT[i - 6];
    assert forall i :: 0 <= i < |Nested()| ==>
        Nested()[i] == if i < 6 then LEFT[i] else if i < 31 then PAIR[i - 6] else RIGHT[i - 31];
  }

  lemma NestedKeepsEarlierTags()
    ensures StripTag(Nested(), "user_info") == Nested() && StripTag(Nested(), "project_layout") == Nested()
  {
    hide StripTag;
    NestedChars();
    var s, open := Nested(), Opener("user_info");
    assert open[0] == '<' && open[1] == 'u' && open[6] == 'i';
    assert s[6] == PAIR[0];
    forall i | 0 <= i ensures !At(s, i, open) {
      if At(s, i, open) {
        AtChars(s, i, open);
      }
    }
    StripTagLeavesNoPair(s, "user_info");
    OpenerAbsent(s, "project_layout");
    StripTagLeavesNoPair(s, "project_layout");
  }

  lemma NestedLosesPair()
    ensures StripTag(Nested(), "git_status") == LEFT + RIGHT
  {
    hide StripTag, At;
    NestedChars();
    var open, close := Opener("git_status"), Closer("git_status");
    assert PAIR == open + close;
    var s := LEFT + open + close + RIGHT;
    assert s == Nested();
    assert open[0] == '<' && open[1] == 'g';
    forall i | 0 <= i < |LEFT| ensures !At(s, i, open) {
      NoOpenerHere(s, i, open);
    }
    StripFirstPair(LEFT, RIGHT, "git_status");
    OpenerAbsent(LEFT + RIGHT, "git_status");
    StripTagLeavesNoPair(LEFT + RIGHT, "git_status");
  }

  lemma NoOpenerHere(s: string, i: nat, open: string)
    requires |open| > 1 && i + 1 < |s| && (s[i] != open[0] || s[i + 1] != open[1])
    ensures !At(s, i, open)
  {
    if At(s, i, open) {
      AtChars(s, i, open);
    }
  }

  lemma LaterTagsStart()
    ensures |SYSTEM_TAGS| == 11
    ensures forall t :: 3 <= t < |SYSTEM_TAGS| ==>
              SYSTEM_TAGS[t] != "" && SYSTEM_TAGS[t][0] != 'u' && SYSTEM_TAGS[t][0] != '/'
  {
  }

  lemma NoLaterPair(t: nat)
    requires 3 <= t < |SYSTEM_TAGS|
    ensures !HasPair(LEFT + RIGHT, SYSTEM_TAGS[t])
  {
    LaterTagsStart();
    NestedChars();
    hide SYSTEM_TAGS, HasPair, LEFT, RIGHT, PAIR;
    OpenerAbsent(LEFT + RIGHT, SYSTEM_TAGS[t]);
  }

  lemma UnnestedPair()
    ensures HasPair(LEFT + RIGHT, "user_info") && Trimmed(LEFT + RIGHT)
  {
    var m, open, close := LEFT + RIGHT, Opener("user_info"), Closer("user_info");
    assert m == "" + open + close == open + close + "";
    Pieces("", open, close);
    Pieces(open, close, "");
    assert At(m, 0, open) && At(m, 11, close);
  }

  lemma UnnestedKeepsLaterTags()
    ensures StripTags(LEFT + RIGHT, SYSTEM_TAGS[3..]) == LEFT + RIGHT
    ensures HasPair(LEFT + RIGHT, "user_info") && Trimmed(LEFT + RIGHT)
  {
    UnnestedPair();
    LaterTagsStart();
    hide StripTags, SYSTEM_TAGS, HasPair, LEFT, RIGHT, Trimmed;
    var later := SYSTEM_TAGS[3..];
    forall t | 0 <= t < |later| ensures !HasPair(LEFT + RIGHT, later[t]) {
      NoLaterPair(t + 3);
    }
    StripTagsShrinks(LEFT + RIGHT, later);
  }

  /** Removing a later tag's pair can complete a pair of an earlier tag: stripping is not idempotent. */
  lemma StripNotIdempotent()
    ensures StripSystemTags(Nested()) == LEFT + RIGHT
    ensures StripSystemTags(StripSystemTags(Nested())) != StripSystemTags(Nested())
    ensures HasPair(StripSystemTags(Nested()), "user_info") && !Clear(Nested())
  {
    hide StripTag, StripTags, TrimBy, HasPair, Clear;
    var s, m := Nested(), LEFT + RIGHT;
    NestedKeepsEarlierTags();
    NestedLosesPair();
    UnnestedKeepsLaterTags();
    assert SYSTEM_TAGS[0..] == SYSTEM_TAGS;
    StripTagsUnfold(s, 0);
    StripTagsUnfold(s, 1);
    StripTagsUnfold(s, 2);
    TrimmedIsFixed(m, IsWhitespace);
    assert StripSystemTags(s) == m;
    StripSystemTagsFixed(m);
    if Clear(s) {
      ClearStripped(s, QUERY_CLOSE);
      assert false;
    }
  }

  // ---- where stripping is idempotent ----

  /** A system opener stands right behind the first part of `u`, from `p` on. */
  predicate Interrupted(s: string, p: nat, u: string) {
    exists n, t :: 0 < n < |u| && p + n <= |s| && s[p..p + n] == u[..n]
                   && 0 <= t < |SYSTEM_TAGS| && At(s, p + n, Opener(SYSTEM_TAGS[t]))
  }

  /** No `u` is begun, broken off by a system opener, and could be completed behind it. */
  ghost predicate Whole(s: string, u: string) {
    forall p: nat :: !Interrupted(s, p, u)
  }

  predicate SystemTag(u: string) {
    exists t :: 0 <= t < |SYSTEM_TAGS| && (u == Opener(SYSTEM_TAGS[t]) || u == Closer(SYSTEM_TAGS[t]))
  }

  /** No system tag is broken off by a system opener. */
  ghost predicate Clear(s: string) {
    forall u :: SystemTag(u) ==> Whole(s, u)
  }

  lemma IsInterrupted(s: string, p: nat, n: nat, u: string, t: nat)
    requires 0 < n < |u| && p + n <= |s| && s[p..p + n] == u[..n]
    requires t < |SYSTEM_TAGS| && At(s, p + n, Opener(SYSTEM_TAGS[t]))
    ensures Interrupted(s, p, u) && !Whole(s, u)
  {
    hide SYSTEM_TAGS, At;
  }

  lemma InterruptedAt(s: string, p: nat, u: string) returns (n: nat, t: nat)
    requires Interrupted(s, p, u)
    ensures 0 < n < |u| && p + n <= |s| && s[p..p + n] == u[..n]
    ensures t < |SYSTEM_TAGS| && At(s, p + n, Opener(SYSTEM_TAGS[t]))
  {
    hide SYSTEM_TAGS, At;
    n, t :| 0 < n < |u| && p + n <= |s| && s[p..p + n] == u[..n]
            && 0 <= t < |SYSTEM_TAGS| && At(s, p + n, Opener(SYSTEM_TAGS[t]));
  }

  lemma OpenerIsSystemTag(t: nat)
    requires t < |SYSTEM_TAGS|
    ensures SystemTag(Opener(SYSTEM_TAGS[t])) && SystemTag(Closer(SYSTEM_TAGS[t]))
  {
    hide SYSTEM_TAGS;
  }

  lemma ClearAt(s: string, t: nat)
    requires Clear(s) && t < |SYSTEM_TAGS|
    ensures Whole(s, Opener(SYSTEM_TAGS[t])) && Whole(s, Closer(SYSTEM_TAGS[t]))
  {
    OpenerIsSystemTag(t);
    hide SYSTEM_TAGS, SystemTag, Whole;
  }

  lemma WholeSlice(s: string, a: nat, b: nat, u: string)
    requires Whole(s, u) && a <= b <= |s|
    ensures Whole(s[a..b], u)
  {
    hide SYSTEM_TAGS, Whole, Interrupted, At;
    NotWholeAt(s[a..b], u);
    if p: nat :| Interrupted(s[a..b], p, u) {
      var n, t := InterruptedAt(s[a..b], p, u);
      AtSlice(s, a, b, p + n, Opener(SYSTEM_TAGS[t]));
      SliceOfSlice(s, a, b, p, p + n);
      IsInterrupted(s, a + p, n, u, t);
    }
  }

  lemma NotWholeAt(s: string, u: string)
    ensures Whole(s, u) || exists p: nat :: Interrupted(s, p, u)
  {
  }

  lemma ClearSlice(s: string, a: nat, b: nat)
    requires Clear(s) && a <= b <= |s|
    ensures Clear(s[a..b])
  {
    hide SystemTag, Whole;
    forall u | SystemTag(u) ensures Whole(s[a..b], u) { WholeSlice(s, a, b, u); }
  }

  /** What stands in the text once a stretch that starts with a system opener is cut out: every
      tag that could not be completed by the cut stood in it before. */
  lemma TagSurvivesCut(s: string, a: nat, b: nat, u: string, i: nat, t: nat)
    requires a < b <= |s| && t < |SYSTEM_TAGS| && At(s, a, Opener(SYSTEM_TAGS[t])) && Whole(s, u)
    requires At(s[..a] + s[b..], i, u)
    ensures if i < a then i + |u| <= a && At(s, i, u) else At(s, i + (b - a), u)
  {
    hide SYSTEM_TAGS, Whole, Opener;
    var r := s[..a] + s[b..];
    AtInside(r, i, u);
    assert s[0..a] == s[..a] && s[b..|s|] == s[b..];
    AtConcat(s[..a], s[b..], i, u);
    if i < a {
      if i + |u| > a {
        var n := a - i;
        BeginsAlike(s, a, b, u, i);
        IsInterrupted(s, i, n, u, t);
      }
      AtSlice(s, 0, a, i, u);
    } else {
      AtSlice(s, b, |s|, i - a, u);
    }
  }

  lemma BeginsAlike(s: string, a: nat, b: nat, u: string, i: nat)
    requires i < a < b <= |s| && At(s[..a] + s[b..], i, u) && i + |u| > a
    ensures s[i..a] == u[..a - i]
  {
    var r := s[..a] + s[b..];
    AtChars(r, i, u);
    forall k | 0 <= k < a - i ensures s[i..a][k] == u[k] {
      assert r[i + k] == s[i + k];
    }
  }

  /** The cut breaks off no tag either. */
  lemma WholeCut(s: string, a: nat, b: nat, t: nat, u: string)
    requires Clear(s) && a < b <= |s| && t < |SYSTEM_TAGS| && At(s, a, Opener(SYSTEM_TAGS[t])) && Whole(s, u)
    ensures Whole(s[..a] + s[b..], u)
  {
    hide SYSTEM_TAGS, Whole, Interrupted, At, Opener, Closer, Clear;
    var r := s[..a] + s[b..];
    NotWholeAt(r, u);
    if p: nat :| Interrupted(r, p, u) {
      var n, t' := InterruptedAt(r, p, u);
      var q := p + n;
      ClearAt(s, t');
      TagSurvivesCut(s, a, b, Opener(SYSTEM_TAGS[t']), q, t);
      if q < a {
        assert s[p..q] == r[p..q];
        IsInterrupted(s, p, n, u, t');
      } else if p < a {
        assert s[p..a] == r[p..q][..a - p];
        IsInterrupted(s, p, a - p, u, t);
      } else {
        var d := b - a;
        assert s[p + d..q + d] == r[p..q];
        IsInterrupted(s, p + d, n, u, t');
      }
    }
  }

  lemma ClearCut(s: string, a: nat, b: nat, t: nat)
    requires Clear(s) && a < b <= |s| && t < |SYSTEM_TAGS| && At(s, a, Opener(SYSTEM_TAGS[t]))
    ensures Clear(s[..a] + s[b..])
  {
    hide SystemTag, Whole, At, SYSTEM_TAGS;
    forall u | SystemTag(u) ensures Whole(s[..a] + s[b..], u) { WholeCut(s, a, b, t, u); }
  }

  lemma PairSurvivesCut(s: string, a: nat, b: nat, t: nat, other: nat)
    requires Clear(s) && a < b <= |s| && t < |SYSTEM_TAGS| && At(s, a, Opener(SYSTEM_TAGS[t])) && other < |SYSTEM_TAGS|
    requires HasPair(s[..a] + s[b..], SYSTEM_TAGS[other])
    ensures HasPair(s, SYSTEM_TAGS[other])
  {
    hide SYSTEM_TAGS, Whole, Clear, At, Opener, Closer;
    var r, tag := s[..a] + s[b..], SYSTEM_TAGS[other];
    var i, j :| 0 <= i <= |r| && i <= j <= |r| && At(r, i, Opener(tag)) && At(r, j, Closer(tag));
    ClearAt(s, other);
    TagSurvivesCut(s, a, b, Opener(tag), i, t);
    TagSurvivesCut(s, a, b, Closer(tag), j, t);
    var i', j' := if i < a then i else i + (b - a), if j < a then j else j + (b - a);
    assert At(s, i', Opener(tag)) && At(s, j', Closer(tag));
  }

  lemma TagContained(s: string, a: nat, b: nat, t: nat, u: string)
    requires a < b <= |s| && t < |SYSTEM_TAGS| && At(s, a, Opener(SYSTEM_TAGS[t])) && Whole(s, u)
    requires Contains(s[..a] + s[b..], u)
    ensures Contains(s, u)
  {
    hide SYSTEM_TAGS, Whole, At, Opener;
    var r := s[..a] + s[b..];
    var i :| 0 <= i <= |r| && At(r, i, u);
    TagSurvivesCut(s, a, b, u, i, t);
    var i' := if i < a then i else i + (b - a);
    AtInside(s, i', u);
    assert At(s, i', u);
  }

  /** Stripping one tag of a clear text keeps it clear, and makes no pair and no tag. */
  lemma {:induction false} StripTagClear(s: string, t: nat, other: nat, u: string)
    requires Clear(s) && t < |SYSTEM_TAGS| && other < |SYSTEM_TAGS| && Whole(s, u)
    ensures var r := StripTag(s, SYSTEM_TAGS[t]);
            && Clear(r) && Whole(r, u) && (Contains(r, u) ==> Contains(s, u))
            && (HasPair(r, SYSTEM_TAGS[other]) ==> HasPair(s, SYSTEM_TAGS[other]))
    decreases |s|
  {
    hide *;
    var tag := SYSTEM_TAGS[t];
    StripTagUnfold(s, tag);
    var start := Find(s, Opener(tag));
    if start.Some? {
      var from := start.value;
      AtInside(s, from, Opener(tag));
      var rel := Find(s[from..], Closer(tag));
      if rel.Some? {
        var end := from + rel.value + |Closer(tag)|;
        SpanNonempty(tag);
        ClearCut(s, from, end, t);
        WholeCut(s, from, end, t, u);
        var r := s[..from] + s[end..];
        StripTagClear(r, t, other, u);
        if HasPair(r, SYSTEM_TAGS[other]) { PairSurvivesCut(s, from, end, t, other); }
        if Contains(r, u) { TagContained(s, from, end, t, u); }
      }
    }
  }

  lemma SpanNonempty(tag: string)
    ensures |Closer(tag)| > 0
  {
  }

  /** Stripping the tags of a clear text in turn leaves no pair of any of them. */
  lemma {:induction false} StripTagsClear(s: string, n: nat, other: nat, u: string)
    requires Clear(s) && Whole(s, u) && n <= |SYSTEM_TAGS| && other < |SYSTEM_TAGS|
    ensures var r := StripTags(s, SYSTEM_TAGS[n..]);
            && Clear(r) && Whole(r, u) && (Contains(r, u) ==> Contains(s, u))
            && (HasPair(r, SYSTEM_TAGS[other]) ==> HasPair(s, SYSTEM_TAGS[other]))
            && (n <= other ==> !HasPair(r, SYSTEM_TAGS[other]))
    decreases |SYSTEM_TAGS| - n
  {
    hide *;
    if n == |SYSTEM_TAGS| {
      StripNone(s);
    } else {
      var next := StripTag(s, SYSTEM_TAGS[n]);
      StripTagsUnfold(s, n);
      StripTagClear(s, n, other, u);
      StripTagLeavesNoPair(s, SYSTEM_TAGS[n]);
      StripTagsClear(next, n + 1, other, u);
    }
  }

  lemma StripNone(s: string)
    ensures StripTags(s, SYSTEM_TAGS[|SYSTEM_TAGS|..]) == s
  {
    hide SYSTEM_TAGS;
  }

  lemma TrimHasNoMore(s: string, tag: string, u: string)
    ensures HasPair(Trim(s), tag) ==> HasPair(s, tag)
    ensures Contains(Trim(s), u) ==> Contains(s, u)
    ensures Clear(s) ==> Clear(Trim(s))
    ensures Whole(s, u) ==> Whole(Trim(s), u)
  {
    hide TrimBy, Clear, Whole, Opener, Closer, SYSTEM_TAGS;
    var a, b := TrimParts(s, IsWhitespace);
    var t := s[a..b];
    if Clear(s) { ClearSlice(s, a, b); }
    if Whole(s, u) { WholeSlice(s, a, b, u); }
    if Contains(t, u) { SliceContains(s, a, b, u); }
    if i, j :| 0 <= i <= |t| && i <= j <= |t| && At(t, i, Opener(tag)) && At(t, j, Closer(tag)) {
      AtSlice(s, a, b, i, Opener(tag));
      AtSlice(s, a, b, j, Closer(tag));
      assert At(s, a + i, Opener(tag)) && At(s, a + j, Closer(tag));
    }
  }

  /** On clear texts stripping removes every pair of every tag and is idempotent, and it creates
      no `u` that the text has not begun and broken off. */
  lemma ClearStripped(s: string, u: string)
    requires Clear(s)
    ensures NoPairs(StripSystemTags(s), SYSTEM_TAGS)
    ensures StripSystemTags(StripSystemTags(s)) == StripSystemTags(s)
    ensures Whole(s, u) && Contains(StripSystemTags(s), u) ==> Contains(s, u)
  {
    hide Clear, Whole, HasPair, Contains, StripTags, TrimBy, SYSTEM_TAGS, Opener;
    var mid, r := StripTags(s, SYSTEM_TAGS), StripSystemTags(s);
    assert SYSTEM_TAGS[0..] == SYSTEM_TAGS;
    AnyTag();
    forall t | 0 <= t < |SYSTEM_TAGS| ensures !HasPair(r, SYSTEM_TAGS[t]) {
      ClearAt(s, t);
      StripTagsClear(s, 0, t, Opener(SYSTEM_TAGS[t]));
      TrimHasNoMore(mid, SYSTEM_TAGS[t], u);
    }
    if Whole(s, u) {
      StripTagsClear(s, 0, 0, u);
      TrimHasNoMore(mid, SYSTEM_TAGS[0], u);
    }
    TrimmedIsFixed(mid, IsWhitespace);
    StripSystemTagsFixed(r);
  }

  // ---- two kinds of clear texts ----

  /** A text without a system opener is clear. */
  lemma TaglessIsClear(s: string)
    requires forall t :: 0 <= t < |SYSTEM_TAGS| ==> !Contains(s, Opener(SYSTEM_TAGS[t]))
    ensures Clear(s) && forall u :: Whole(s, u)
  {
    hide SYSTEM_TAGS, Opener, SystemTag, Whole, At;
    forall u ensures Whole(s, u) {
      NotWholeAt(s, u);
      if p: nat :| Interrupted(s, p, u) {
        var n, t := InterruptedAt(s, p, u);
        assert false;
      }
    }
  }

  predicate ClosedBetween(s: string, p: nat, q: nat)
    requires q <= |s|
  {
    exists r :: p < r < q && s[r] == '>'
  }

  /** A `>` stands between any two `<`. */
  predicate Flat(s: string) {
    forall p, q :: 0 <= p < q < |s| && s[p] == '<' && s[q] == '<' ==> ClosedBetween(s, p, q)
  }

  /** From its only `<` to its only `>`. */
  predicate Bracketed(u: string) {
    TagShaped(u) && u[|u| - 1] == '>' && forall k :: 0 <= k < |u| - 1 ==> u[k] != '>'
  }

  /** A flat text breaks no tag off. */
  lemma FlatIsWhole(s: string, u: string)
    requires Flat(s) && Bracketed(u)
    ensures Whole(s, u)
  {
    hide SYSTEM_TAGS, Whole, Interrupted, Flat;
    NotWholeAt(s, u);
    if p: nat :| Interrupted(s, p, u) {
      var n, t := InterruptedAt(s, p, u);
      AtChars(s, p + n, Opener(SYSTEM_TAGS[t]));
      AtInside(s, p + n, Opener(SYSTEM_TAGS[t]));
      assert forall k :: 0 <= k < n ==> s[p + k] == s[p..p + n][k] == u[k];
      FlatAt(s, p, p + n);
    }
  }

  lemma FlatAt(s: string, p: nat, q: nat)
    requires Flat(s) && p < q < |s| && s[p] == '<' && s[q] == '<'
    ensures ClosedBetween(s, p, q)
  {
  }

  lemma SystemTagsBracketed(u: string)
    requires SystemTag(u)
    ensures Bracketed(u)
  {
    SystemTagsPlain();
    hide SYSTEM_TAGS, PlainTag, Bracketed, Opener, Closer;
    var t :| 0 <= t < |SYSTEM_TAGS| && (u == Opener(SYSTEM_TAGS[t]) || u == Closer(SYSTEM_TAGS[t]));
    TagsBracketed(SYSTEM_TAGS[t]);
  }

  lemma TagsBracketed(tag: string)
    requires PlainTag(tag)
    ensures Bracketed(Opener(tag)) && Bracketed(Closer(tag))
  {
  }

  lemma SystemTagsPlain()
    ensures forall t :: 0 <= t < |SYSTEM_TAGS| ==> PlainTag(SYSTEM_TAGS[t])
  {
    assert PlainTag("user_info") && PlainTag("project_layout") && PlainTag("git_status");
    assert PlainTag("fork-context") && PlainTag("system-reminder") && PlainTag("agent-memory");
    assert PlainTag("system_reminder") && PlainTag("background_context");
    assert PlainTag("command-name") && PlainTag("command-message") && PlainTag("command-args");
    hide PlainTag;
  }

  /** A flat text is clear. */
  lemma FlatIsClear(s: string)
    requires Flat(s)
    ensures Clear(s)
  {
    hide Flat, SystemTag, Bracketed, Whole;
    forall u | SystemTag(u) ensures Whole(s, u) {
      SystemTagsBracketed(u);
      FlatIsWhole(s, u);
    }
  }

  lemma AnyTag()
    ensures |SYSTEM_TAGS| > 0
  {
  }

  /** The query that extraction finds between the tags, when it finds any. */
  predicate HasQuery(text: string) {
    var start := Find(text, QUERY_OPEN);
    start.Some? && Find(text[start.value + |QUERY_OPEN|..], QUERY_CLOSE).Some?
  }

  /** A query extracted from a text that breaks no tag off survives wrapping and extracting
      again, when it was found between its tags or the text has no closing query tag. */
  lemma ClearQueryRoundTrips(text: string)
    requires Clear(text)
    ensures NoPairs(ExtractUserQuery(text), SYSTEM_TAGS) && Trimmed(ExtractUserQuery(text))
    ensures Whole(text, QUERY_CLOSE) && (HasQuery(text) || !Contains(text, QUERY_CLOSE)) ==>
              RoundTrips(ExtractUserQuery(text))
  {
    CloserIsLong();
    hide StripSystemTags, Clear, Whole, NoPairs, SYSTEM_TAGS, QUERY_OPEN, QUERY_CLOSE, TrimBy, Contains;
    var source := text;
    if HasQuery(text) {
      var from := Find(text, QUERY_OPEN).value + |QUERY_OPEN|;
      var rest := text[from..];
      var end := Find(rest, QUERY_CLOSE).value;
      var inner := rest[..end];
      assert inner == text[from..from + end];
      ClearSlice(text, from, from + end);
      if Whole(text, QUERY_CLOSE) { WholeSlice(text, from, from + end, QUERY_CLOSE); }
      TrimHasNoMore(inner, "", QUERY_CLOSE);
      BeforeFirst(rest, QUERY_CLOSE, end);
      source := Trim(inner);
    }
    ClearStripped(source, QUERY_CLOSE);
    StripIsTrimmed(source);
  }

  lemma BeforeFirst(s: string, t: string, end: nat)
    requires t != "" && Find(s, t) == Some(end)
    ensures !Contains(s[..end], t)
  {
    hide Find;
    AtInside(s, end, t);
    assert s[0..end] == s[..end];
    if i :| 0 <= i <= end && At(s[..end], i, t) {
      AtSlice(s, 0, end, i, t);
    }
  }

  lemma StripIsTrimmed(text: string)
    ensures Trimmed(StripSystemTags(text))
  {
    hide StripTags, TrimBy;
    TrimmedIsFixed(StripTags(text, SYSTEM_TAGS), IsWhitespace);
  }
}
