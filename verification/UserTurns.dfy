/** Which prompts are real user turns, in terms of the text the user typed. */
module UserTurns {
  import opened Options
  import opened Conversation
  import opened Text
  import opened UserQuery
  import opened QueryText
  import opened CompactedHistory

  lemma {:induction false} NoTextsIff(parts: seq<ContentPart>)
    ensures Texts(parts) == [] <==> forall k :: 0 <= k < |parts| ==> parts[k].ImagePart?
  {
    if parts != [] {
      NoTextsIff(parts[1..]);
      assert forall k :: 1 <= k < |parts| ==> parts[k] == parts[1..][k - 1];
    }
  }

  /** The text of a prompt: its text parts in their order, a newline between any two, its images
      passed over. */
  lemma TextContentCons(part: ContentPart, rest: seq<ContentPart>)
    ensures TextContent([part] + rest)
         == if part.ImagePart? then TextContent(rest)
            else if forall k :: 0 <= k < |rest| ==> rest[k].ImagePart? then part.text
            else part.text + "\n" + TextContent(rest)
    ensures TextContent([]) == ""
  {
    hide JoinLines;
    NoTextsIff(rest);
    assert ([part] + rest)[1..] == rest;
    if part.TextPart? {
      JoinLinesCons(part.text, Texts(rest));
    } else {
      assert [] + Texts(rest) == Texts(rest);
    }
    NoPieces();
  }

  lemma NoPieces()
    ensures JoinLines([]) == ""
  {
  }

  /** The three texts that no user typed. */
  predicate Automatic(text: string) {
    || text == "" || text == "__auto_continue__"
    || text == "Continue the conversation from where it left off without asking the user any further questions. "
               + "Resume directly - do not acknowledge the summary, do not recap what was happening, "
               + "do not preface with \"I'll continue\" or similar.\n"
               + "Pick up the last task as if the break never happened."
  }

  lemma AutomaticIs(text: string)
    ensures IsSyntheticExtractedQuery(text) <==> Automatic(text)
  {
  }

  /** A prompt without query tags and system pairs is a real turn exactly when it is not marked
      synthetic and has an image, or a text that is none of the three but for outer blanks; and its
      query is that text. */
  lemma PlainTurnIff(parts: seq<ContentPart>, reason: Option<SyntheticReason>)
    requires !HoldsQuery(TextContent(parts)) && NoPairs(TextContent(parts), SYSTEM_TAGS)
    ensures IsRealUserTurn(User(parts, reason))
       <==> reason.None?
            && ((exists k :: 0 <= k < |parts| && parts[k].ImagePart?) || !Automatic(Trim(TextContent(parts))))
    ensures QueryOf(User(parts, reason)) == Trim(TextContent(parts))
  {
    hide Automatic, IsSyntheticExtractedQuery, TextContent, HoldsQuery, NoPairs, ExtractUserQuery, TrimBy;
    PlainIsItsQuery(TextContent(parts));
    AutomaticIs(Trim(TextContent(parts)));
  }

  /** One with a query in tags goes by that query, whatever surrounds the tags. */
  lemma TaggedTurnIff(before: string, q: string, after: string)
    requires !Contains(before, QUERY_OPEN) && !Contains(q, QUERY_CLOSE)
    ensures IsRealUserTurn(User([TextPart(before + QUERY_OPEN + q + QUERY_CLOSE + after)], None))
       <==> !Automatic(StripSystemTags(Trim(q)))
  {
    hide Automatic, IsSyntheticExtractedQuery, TextContent, ExtractUserQuery, TrimBy, StripTags;
    var text := before + QUERY_OPEN + q + QUERY_CLOSE + after;
    SurroundingsDropped(before, q, after);
    TextContentCons(TextPart(text), []);
    assert [TextPart(text)] + [] == [TextPart(text)];
    AutomaticIs(StripSystemTags(Trim(q)));
  }
}
