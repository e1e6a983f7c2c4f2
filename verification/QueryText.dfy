/** What `strip_system_tags` and `extract_user_query` take out of a text, and what they leave. */
module QueryText {
  import opened Options
  import opened Text
  import opened UserQuery

  lemma QueryTags()
    ensures TagShaped(QUERY_OPEN) && TagShaped(QUERY_CLOSE) && |QUERY_OPEN| == 12 && |QUERY_CLOSE| == 13
  {
    QueryTagsShaped();
  }

  // ---- one tagged stretch ----

  /** The first stretch of a tag goes, its content included, and what stands around it stays. */
  lemma StretchRemoved(a: string, mid: string, b: string, tag: string)
    requires PlainTag(tag) && !Contains(a, Opener(tag)) && !Contains(mid, Closer(tag))
    ensures StripTag(a + Opener(tag) + mid + Closer(tag) + b, tag) == StripTag(a + b, tag)
  {
    hide *;
    var open, close := Opener(tag), Closer(tag);
    var s, rest := a + open + mid + close + b, open + mid + close + b;
    TagsShaped(tag);
    FirstIn(a, open, mid + close + b);
    assert a + open + (mid + close + b) == s && s[|a|..] == rest;
    CloserBehind(mid, b, tag);
    StripTagUnfold(s, tag);
    assert s[..|a|] + s[|a| + (|open| + |mid|) + |close|..] == a + b;
  }

  /** The first closer at or behind an opener is the one that ends its stretch. */
  lemma CloserBehind(mid: string, b: string, tag: string)
    requires PlainTag(tag) && !Contains(mid, Closer(tag))
    ensures Find(Opener(tag) + mid + Closer(tag) + b, Closer(tag)) == Some(|Opener(tag)| + |mid|)
  {
    hide *;
    var open, close := Opener(tag), Closer(tag);
    var lead := open + mid;
    TagsShaped(tag);
    if Contains(lead, close) { CloserInStretch(mid, tag); }
    FirstIn(lead, close, b);
  }

  lemma CloserInStretch(mid: string, tag: string)
    requires PlainTag(tag) && Contains(Opener(tag) + mid, Closer(tag))
    ensures Contains(mid, Closer(tag))
  {
    var open, close := Opener(tag), Closer(tag);
    var s := open + mid;
    var i :| 0 <= i <= |s| && At(s, i, close);
    CloserPastOpener(mid, i, tag);
  }

  lemma CloserPastOpener(mid: string, i: nat, tag: string)
    requires PlainTag(tag) && At(Opener(tag) + mid, i, Closer(tag))
    ensures Contains(mid, Closer(tag))
  {
    hide Opener, Closer, PlainTag, Contains;
    var open, close := Opener(tag), Closer(tag);
    var s := open + mid;
    Pieces("", open, mid);
    assert "" + open + mid == s;
    CloserBehindOpener(s, i, tag);
    assert s[|open|..|s|] == mid;
    AtSlice(s, |open|, |s|, i - |open|, close);
    Occurs(mid, i - |open|, close);
  }

  /** One system block in a text that holds no other pair: exactly the block goes, and the outer
      blanks. */
  lemma {:induction false} EarlierTagsKeep(s: string, t: nat, n: nat)
    requires t <= n <= |SYSTEM_TAGS| && forall k :: t <= k < n ==> !HasPair(s, SYSTEM_TAGS[k])
    ensures StripTags(s, SYSTEM_TAGS[t..]) == StripTags(s, SYSTEM_TAGS[n..])
    decreases n - t
  {
    if t < n {
      hide StripTags, StripTag, HasPair, SYSTEM_TAGS;
      StripTagsUnfold(s, t);
      StripTagLeavesNoPair(s, SYSTEM_TAGS[t]);
      EarlierTagsKeep(s, t + 1, n);
    }
  }

  lemma BlockRemoved(a: string, mid: string, b: string, t: nat)
    requires t < |SYSTEM_TAGS| && NoPairs(a + b, SYSTEM_TAGS)
    requires var tag := SYSTEM_TAGS[t]; !Contains(a, Opener(tag)) && !Contains(mid, Closer(tag))
    requires var s := a + Opener(SYSTEM_TAGS[t]) + mid + Closer(SYSTEM_TAGS[t]) + b;
             forall k :: 0 <= k < t ==> !HasPair(s, SYSTEM_TAGS[k])
    ensures StripSystemTags(a + Opener(SYSTEM_TAGS[t]) + mid + Closer(SYSTEM_TAGS[t]) + b) == Trim(a + b)
  {
    SystemTagsPlain();
    hide StripTags, StripTag, HasPair, SYSTEM_TAGS, PlainTag, Opener, Closer, Contains, TrimBy;
    var tag := SYSTEM_TAGS[t];
    var s := a + Opener(tag) + mid + Closer(tag) + b;
    assert SYSTEM_TAGS[0..] == SYSTEM_TAGS;
    EarlierTagsKeep(s, 0, t);
    StripTagsUnfold(s, t);
    StretchRemoved(a, mid, b, tag);
    StripTagLeavesNoPair(a + b, tag);
    EarlierTagsKeep(a + b, t + 1, |SYSTEM_TAGS|);
    StripNone(a + b);
  }

  // ---- extracting ----

  /** A closing query tag stands behind an opening one. */
  predicate HoldsQuery(text: string) {
    exists i, j :: 0 <= i && i + |QUERY_OPEN| <= j <= |text| && At(text, i, QUERY_OPEN) && At(text, j, QUERY_CLOSE)
  }

  lemma HasQueryIff(text: string)
    ensures HasQuery(text) <==> HoldsQuery(text)
  {
    hide QUERY_OPEN, QUERY_CLOSE, Find;
    QueryTags();
    var start := Find(text, QUERY_OPEN);
    if start.Some? {
      var from := start.value + |QUERY_OPEN|;
      AtInside(text, start.value, QUERY_OPEN);
      assert text[from..|text|] == text[from..];
      var end := Find(text[from..], QUERY_CLOSE);
      if end.Some? {
        AtSlice(text, from, |text|, end.value, QUERY_CLOSE);
        assert At(text, start.value, QUERY_OPEN) && At(text, from + end.value, QUERY_CLOSE);
        AtInside(text, from + end.value, QUERY_CLOSE);
      }
      if i, j :| 0 <= i && i + |QUERY_OPEN| <= j <= |text| && At(text, i, QUERY_OPEN) && At(text, j, QUERY_CLOSE) {
        AtSlice(text, from, |text|, j - from, QUERY_CLOSE);
        Occurs(text[from..], j - from, QUERY_CLOSE);
      }
    }
  }

  /** A prompt without query tags is its own query, exactly when it is trimmed and holds no complete
      pair of a system tag; without such a pair its query is the prompt, trimmed. */
  lemma PlainIsItsQuery(text: string)
    requires !HoldsQuery(text)
    ensures ExtractUserQuery(text) == text <==> Trimmed(text) && NoPairs(text, SYSTEM_TAGS)
    ensures NoPairs(text, SYSTEM_TAGS) ==> ExtractUserQuery(text) == Trim(text)
  {
    HasQueryIff(text);
    hide StripSystemTags, NoPairs, SYSTEM_TAGS, Find, QUERY_OPEN, QUERY_CLOSE, TrimBy;
    StripSystemTagsFixed(text);
    if NoPairs(text, SYSTEM_TAGS) { StripIsTrim(text); }
  }

  lemma StripIsTrim(text: string)
    requires NoPairs(text, SYSTEM_TAGS)
    ensures StripSystemTags(text) == Trim(text)
  {
    hide StripTags, NoPairs, SYSTEM_TAGS, TrimBy;
    StripTagsShrinks(text, SYSTEM_TAGS);
  }

  /** The query is what stands between the first opening tag and the next closing one, whatever
      surrounds them. */
  lemma SurroundingsDropped(before: string, q: string, after: string)
    requires !Contains(before, QUERY_OPEN) && !Contains(q, QUERY_CLOSE)
    ensures ExtractUserQuery(before + QUERY_OPEN + q + QUERY_CLOSE + after) == StripSystemTags(Trim(q))
  {
    QueryTags();
    hide StripSystemTags, TrimBy, Find, QUERY_OPEN, QUERY_CLOSE, TagShaped, Contains;
    var text, behind := before + QUERY_OPEN + q + QUERY_CLOSE + after, q + QUERY_CLOSE + after;
    FirstIn(before, QUERY_OPEN, behind);
    assert before + QUERY_OPEN + behind == text && text[|before| + |QUERY_OPEN|..] == behind;
    FirstIn(q, QUERY_CLOSE, after);
    assert behind[..|q|] == q;
  }
}
