/** What the polls of a run are answered, taken together: how many bytes, and when the end of file. */
module LineAnswers {
  import opened Options
  import opened LineReader
  import opened LineStream
  import opened LineGuarantees
  import opened LineFailures

  /** A poll with room answers end of file exactly when all is served and nothing more can come, and
      then every later poll does. */
  lemma EofIff(c: System, s: State, n: nat)
    requires Inv(c, s) && n > 0
    ensures PollOf(s, n).poll == Ready(Ok(0)) <==> s.producer.Stopped? && s.queue == [] && s.pos >= |s.buf|
    ensures PollOf(s, n).poll == Ready(Ok(0)) ==> forall a :: Do(c, s, a) == s
  {
    hide Conserved, Ends, AtBoundary, Ahead, NoNewline;
    if s.pos >= |s.buf| && s.queue != [] {
      assert Pipeline(s)[0] == s.queue[0];
    }
  }

  /** It is pending exactly when all that has arrived is served and more can come. */
  lemma PendingIff(s: State, n: nat)
    ensures PollOf(s, n).poll == Pending <==> !s.producer.Stopped? && s.queue == [] && s.pos >= |s.buf|
  {
  }

  /** The bytes that an answer says have been put into the destination. */
  function BytesOf(poll: Poll): nat {
    if poll.Ready? && poll.result.Ok? then poll.result.value else 0
  }

  function BytesIn(replies: seq<Poll>): nat {
    if replies == [] then 0 else BytesOf(replies[0]) + BytesIn(replies[1..])
  }

  /** They are as many as the poll delivers, and fit the destination. */
  lemma AnswerCounts(s: State, n: nat)
    ensures BytesOf(PollOf(s, n).poll) == |PollStep(s, n).delivered| - |s.delivered| <= n
  {
  }

  lemma {:induction false} RepliesCount(c: System, s: State, actions: seq<Action>)
    ensures |Exec(c, s, actions).delivered| == |s.delivered| + BytesIn(Replies(c, s, actions))
    decreases |actions|
  {
    hide FillStep, SendStep, PollStep, PollOf, BytesOf, BytesIn;
    if actions == [] {
      NoBytesIn();
    } else {
      var a, next, rest := actions[0], Do(c, s, actions[0]), actions[1..];
      var later := Replies(c, next, rest);
      RepliesCount(c, next, rest);
      OnlyPollsDeliver(c, s);
      if a.PollWith? {
        AnswerCounts(s, a.n);
        BytesInCons(PollOf(s, a.n).poll, later);
      } else {
        assert [] + later == later;
      }
    }
  }

  lemma NoBytesIn()
    ensures BytesIn([]) == 0
  {
  }

  lemma BytesInCons(poll: Poll, replies: seq<Poll>)
    ensures BytesIn([poll] + replies) == BytesOf(poll) + BytesIn(replies)
  {
    assert ([poll] + replies)[1..] == replies;
  }

  lemma OnlyPollsDeliver(c: System, s: State)
    ensures FillStep(c, s).delivered == s.delivered && SendStep(c, s).delivered == s.delivered
  {
  }

  /** The answers of a run add up to what it has delivered; of one to its end over a sound source,
      to the whole source. */
  lemma AnswersAddUp(c: System, actions: seq<Action>)
    requires c.Valid()
    ensures BytesIn(Replies(c, Initial(c), actions)) == |Run(c, actions).delivered|
    ensures Finished(Run(c, actions)) && !Failing(c) ==> BytesIn(Replies(c, Initial(c), actions)) == |c.Source()|
  {
    hide Failing, Finished, Replies, BytesIn, IsFailure;
    RepliesCount(c, Initial(c), actions);
    if Finished(Run(c, actions)) {
      FinishedReports(c, actions);
    }
  }
}
