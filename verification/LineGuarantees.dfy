/** What the line reader guarantees over every interleaving of its producer, its
    channel and its consumer, for every way of cutting the source into chunks. */
module LineGuarantees {
  import opened Options
  import opened LineReader
  import opened LineStream

  /** The state after `actions`, from the start. */
  function Run(c: System, actions: seq<Action>): State {
    Exec(c, Initial(c), actions)
  }

  lemma DoInv(c: System, s: State, a: Action)
    requires Inv(c, s)
    ensures Inv(c, Do(c, s, a))
  {
    hide Inv, FillStep, SendStep, PollStep;
    match a
    case Fill => FillInv(c, s);
    case Send => SendInv(c, s);
    case PollWith(n) => PollInv(c, s, n);
  }

  lemma {:induction false} ExecInv(c: System, s: State, actions: seq<Action>)
    requires Inv(c, s)
    ensures Inv(c, Exec(c, s, actions))
    decreases |actions|
  {
    hide Inv, Do;
    if actions != [] {
      DoInv(c, s, actions[0]);
      ExecInv(c, Do(c, s, actions[0]), actions[1..]);
    }
  }

  /** No byte is lost, repeated or reordered, in any state any run reaches. */
  lemma BytesConserved(c: System, actions: seq<Action>)
    requires c.Valid()
    ensures var s := Run(c, actions);
            && s.pos <= |s.buf|
            && s.delivered + s.buf[s.pos..] + Queued(Pipeline(s)) + Ahead(s) == c.Source()
            && s.delivered <= c.Source()
  {
    hide Exec, Initial, Queued, Pipeline, Ahead, Flatten, WholeLines, Ends, AtBoundary;
    InitialInv(c);
    ExecInv(c, Initial(c), actions);
  }

  /** A poll is only ever told to wait between two lines. */
  lemma NeverPendingInsideLine(c: System, actions: seq<Action>, n: nat)
    requires c.Valid() && PollOf(Run(c, actions), n).poll.Pending?
    ensures AtBoundary(Run(c, actions).delivered, c.Source())
  {
    hide Exec, Initial, Queued, Pipeline, Ahead, Flatten, WholeLines, Ends, AtBoundary, Conserved;
    InitialInv(c);
    ExecInv(c, Initial(c), actions);
  }

  /** Once part of a line is out, every poll with room hands over more of it. */
  lemma InsideLineIsReady(c: System, actions: seq<Action>, n: nat)
    requires c.Valid() && n > 0 && !AtBoundary(Run(c, actions).delivered, c.Source())
    ensures var s := Run(c, actions);
            && PollOf(s, n).poll == Ready(Ok(|PollOf(s, n).out|)) && PollOf(s, n).out != []
            && s.pos <= |s.buf| && PollOf(s, n).out <= s.buf[s.pos..]
            && PollStep(s, n).delivered == s.delivered + PollOf(s, n).out
  {
    hide Exec, Initial, Queued, Pipeline, Ahead, Flatten, WholeLines, Ends, AtBoundary, Conserved;
    InitialInv(c);
    ExecInv(c, Initial(c), actions);
  }

  lemma QueueHead(c: System, s: State)
    requires Inv(c, s) && s.queue != []
    ensures s.queue[0].Ok? ==> s.queue[0].value != []
    ensures s.queue[0].Err? ==> Pipeline(s) == [s.queue[0]] && !s.producer.Reading?
  {
    hide Ahead, Conserved, Ends, AtBoundary;
    assert Pipeline(s)[0] == s.queue[0];
  }

  lemma NothingQueued(e: ReadError)
    ensures Queued([]) == [] && Queued([Err(e)]) == []
  {
    var ms: seq<Message> := [Err(e)];
    assert ms[1..] == [];
    QueuedFailures(ms);
  }

  /** End of file: everything but a failed line and what lies behind it is out. */
  lemma EofAfterAll(c: System, s: State, n: nat)
    requires Inv(c, s) && n > 0 && PollOf(s, n).poll == Ready(Ok(0))
    ensures s.producer.Stopped? && s.delivered + s.lost + Flatten(s.unread) == c.Source()
  {
    hide Queued, WholeLines, Ends, AtBoundary, Flatten;
    if s.queue != [] { QueueHead(c, s); }
    NothingQueued(Io(""));
    assert Pipeline(s) == [] && Unserved(s) == [];
    assert s.delivered + [] + [] + ([] + s.lost + Flatten(s.unread)) == s.delivered + s.lost + Flatten(s.unread);
  }

  /** A failure reaches the consumer after every line before it, between two lines. */
  lemma FailureAfterLines(c: System, actions: seq<Action>, n: nat)
    requires c.Valid() && PollOf(Run(c, actions), n).poll.Ready? && PollOf(Run(c, actions), n).poll.result.Err?
    ensures var s := Run(c, actions);
            s.delivered + s.lost + Flatten(s.unread) == c.Source() && AtBoundary(s.delivered, c.Source())
  {
    InitialInv(c);
    hide Exec, Initial, Queued, WholeLines, Ends, AtBoundary, Flatten;
    ExecInv(c, Initial(c), actions);
    var s := Run(c, actions);
    QueueHead(c, s);
    NothingQueued(s.queue[0].error);
    assert Unserved(s) == [];
    assert s.delivered + [] + [] + ([] + s.lost + Flatten(s.unread)) == s.delivered + s.lost + Flatten(s.unread);
  }

  /** The producer's passes add up to `read_line_capped`: what it sends is the first line of
      what it still had to read, or the failure that line ends in. */
  lemma SendsFirstLine(c: System, s: State)
    requires Inv(c, s) && s.producer.Reading? && FillStep(c, s).producer.Sending?
    ensures var m, todo := FillStep(c, s).producer.message, s.producer.line + Flatten(s.unread);
            && (m.Ok? ==> m.value == FirstLine(todo) && |m.value| <= MAX_LINE_SIZE
                          && Flatten(FillStep(c, s).unread) == todo[|m.value|..])
            && (m.Err? && m.error.TooLong? ==> |FirstLine(todo)| > MAX_LINE_SIZE)
            && (m.Err? && m.error.Io? ==>
                  todo == FirstLine(todo) && !Terminated(todo) && c.failure == Some(m.error.code))
  {
    hide Conserved, WholeLines, Ends, AtBoundary, Queued, FirstLine, Flatten, Terminated, Rechunk, Taken;
    hide NewlineAt, NoNewline;
    var line := s.producer.line;
    if s.unread == [] {
      FlattenNone();
      EndReached(line, line + []);
      assert line + [] == line;
    } else {
      var available, rest := s.unread[0], s.unread[1..];
      assert s.unread == [available] + rest;
      BytesMove(line, available, rest);
      RechunkFlat(available, rest);
      ChunkFirst(available, rest);
      ReadStep(line, available, Flatten(rest));
      var read, unread := line + available[..Taken(available)], Rechunk(available[Taken(available)..], rest);
      assert line + Flatten(s.unread) == read + Flatten(unread);
    }
  }

  // ---- sources whose lines all fit ----

  /** No line of `s` is longer than the limit. */
  predicate LinesFit(s: seq<Byte>)
    decreases |s|
  {
    s == [] || (|FirstLine(s)| <= MAX_LINE_SIZE && LinesFit(s[|FirstLine(s)|..]))
  }

  ghost predicate Sound(c: System, s: State) {
    && (s.producer.Reading? ==> LinesFit(s.producer.line + Flatten(s.unread)))
    && (s.producer.Sending? ==> s.producer.message.Ok? && LinesFit(Flatten(s.unread)))
    && (s.producer.Stopped? ==> Flatten(s.unread) == [])
    && s.lost == []
    && (forall k :: 0 <= k < |s.queue| ==> s.queue[k].Ok?)
  }

  lemma LinesFitStep(s: seq<Byte>)
    requires LinesFit(s)
    ensures |FirstLine(s)| <= |s|
    ensures |FirstLine(s)| <= MAX_LINE_SIZE || s == []
    ensures LinesFit(s[|FirstLine(s)|..])
  {
  }

  lemma FillSound(c: System, s: State)
    requires Inv(c, s) && Sound(c, s) && c.failure.None?
    ensures Sound(c, FillStep(c, s))
  {
    hide Conserved, WholeLines, Ends, AtBoundary, Queued, LinesFit, FirstLine, Flatten, Terminated, Rechunk;
    hide Taken, NewlineAt;
    if s.producer.Reading? {
      var line := s.producer.line;
      if s.unread == [] {
        FlattenNone();
        NoLines();
      } else {
        var available, rest := s.unread[0], s.unread[1..];
        assert s.unread == [available] + rest;
        ReadFits(line, available, rest);
      }
    }
  }

  lemma NoLines()
    ensures LinesFit([])
  {
  }

  lemma ReadFits(line: seq<Byte>, available: seq<Byte>, rest: seq<seq<Byte>>)
    requires NoNewline(line) && |line| <= MAX_LINE_SIZE && available != []
    requires forall k :: 0 <= k < |rest| ==> rest[k] != []
    requires LinesFit(line + Flatten([available] + rest))
    ensures var read, unread := line + available[..Taken(available)], Rechunk(available[Taken(available)..], rest);
            && |read| <= MAX_LINE_SIZE
            && (if NewlineAt(available).Some? then LinesFit(Flatten(unread)) else LinesFit(read + Flatten(unread)))
  {
    hide *;
    var read, unread := line + available[..Taken(available)], Rechunk(available[Taken(available)..], rest);
    var source := line + Flatten([available] + rest);
    BytesMove(line, available, rest);
    RechunkFlat(available, rest);
    ChunkFirst(available, rest);
    ReadStep(line, available, Flatten(rest));
    LinesFitStep(source);
    assert source == line + (available + Flatten(rest)) == read + Flatten(unread);
    assert source[|read|..] == Flatten(unread);
  }

  lemma {:induction false} ExecSound(c: System, s: State, actions: seq<Action>)
    requires Inv(c, s) && Sound(c, s) && c.failure.None?
    ensures Inv(c, Exec(c, s, actions)) && Sound(c, Exec(c, s, actions))
    decreases |actions|
  {
    hide Inv;
    if actions != [] {
      DoInv(c, s, actions[0]);
      DoSound(c, s, actions[0]);
      hide Sound, Do;
      ExecSound(c, Do(c, s, actions[0]), actions[1..]);
    }
  }

  lemma DoSound(c: System, s: State, a: Action)
    requires Inv(c, s) && Sound(c, s) && c.failure.None?
    ensures Sound(c, Do(c, s, a))
  {
    hide Inv, Flatten, LinesFit, FillStep;
    match a
    case Fill => FillSound(c, s);
    case Send => assert [] + Flatten(s.unread) == Flatten(s.unread);
    case PollWith(n) =>
  }

  lemma InitialSound(c: System)
    requires c.Valid() && LinesFit(c.Source())
    ensures Sound(c, Initial(c))
  {
    hide LinesFit, Flatten;
    assert [] + c.Source() == c.Source();
  }

  lemma RunSound(c: System, actions: seq<Action>)
    requires c.Valid() && LinesFit(c.Source()) && c.failure.None?
    ensures Inv(c, Run(c, actions)) && Sound(c, Run(c, actions))
  {
    hide Inv, Sound, Exec, Initial;
    InitialInv(c);
    InitialSound(c);
    ExecSound(c, Initial(c), actions);
  }

  /** When no line is oversized and the source does not break, `Ok(0)` on a destination
      with room means the whole source has been delivered, and no poll reports a failure. */
  lemma EofMeansAll(c: System, actions: seq<Action>, n: nat)
    requires c.Valid() && LinesFit(c.Source()) && c.failure.None? && n > 0
    ensures var s := Run(c, actions); var poll := PollOf(s, n).poll;
            && (poll == Ready(Ok(0)) ==> s.delivered == c.Source())
            && (poll.Ready? ==> poll.result.Ok?)
  {
    RunSound(c, actions);
    hide Inv, Exec, Initial, Flatten, LinesFit;
    var s := Run(c, actions);
    if PollOf(s, n).poll == Ready(Ok(0)) {
      EofAfterAll(c, s, n);
      assert s.delivered + [] + [] == s.delivered;
    }
  }

  // ---- progress ----

  /** Nothing left to serve and nothing more to come. */
  predicate Finished(s: State) {
    s.producer.Stopped? && s.queue == [] && s.pos >= |s.buf|
  }

  /** No deadlock: until all is served, some action changes the state. */
  lemma SomeActionMoves(c: System, s: State) returns (a: Action)
    requires Inv(c, s) && !Finished(s)
    ensures Do(c, s, a) != s && (a.PollWith? ==> a.n == 1)
  {
    hide Conserved, WholeLines, Ends, AtBoundary, Queued, Ahead, Flatten, Terminated, NoNewline, Taken, NewlineAt;
    if s.pos < |s.buf| || s.queue != [] {
      a := PollWith(1);
      if s.pos >= |s.buf| {
        assert PollStep(s, 1).queue == s.queue[1..];
      } else {
        assert PollStep(s, 1).delivered == s.delivered + s.buf[s.pos..s.pos + 1];
      }
    } else if s.producer.Reading? {
      a := Fill;
      if s.unread != [] {
        var available := s.unread[0];
        assert |s.producer.line + available[..Taken(available)]| > |s.producer.line|;
      }
    } else {
      a := Send;
    }
  }

  function Weight(queue: seq<Message>): nat {
    if queue == [] then 0 else (if queue[0].Ok? then |queue[0].value| else 1) + Weight(queue[1..])
  }

  function ProducerWeight(p: Producer): nat {
    match p
    case Reading(line) => 3 * |line| + 3
    case Sending(m) => if m.Ok? then 2 * |m.value| + 3 else 2
    case Stopped => 0
  }

  /** What is left to be done. */
  function Work(s: State): nat
    requires s.pos <= |s.buf|
  {
    4 * |Flatten(s.unread)| + ProducerWeight(s.producer) + Weight(s.queue) + |s.buf| - s.pos
  }

  lemma {:induction false} WeightPush(queue: seq<Message>, m: Message)
    ensures Weight(queue + [m]) == Weight(queue) + if m.Ok? then |m.value| else 1
  {
    if queue == [] {
      assert (queue + [m])[1..] == [];
    } else {
      WeightPush(queue[1..], m);
      assert (queue + [m])[1..] == queue[1..] + [m];
    }
  }

  lemma FillWorks(c: System, s: State)
    requires Inv(c, s) && FillStep(c, s) != s
    ensures Work(FillStep(c, s)) < Work(s)
  {
    hide Conserved, WholeLines, Ends, AtBoundary, Queued, Ahead, Pipeline, Flatten;
    hide Terminated, NoNewline, Taken, NewlineAt, Rechunk, Weight;
    if s.unread != [] {
      var available, rest := s.unread[0], s.unread[1..];
      assert s.unread == [available] + rest;
      ChunkFirst(available, rest);
      RechunkFlat(available, rest);
      RechunkFlat(available[Taken(available)..], rest);
    }
  }

  lemma SendWorks(c: System, s: State)
    requires Inv(c, s) && SendStep(c, s) != s
    ensures Work(SendStep(c, s)) < Work(s)
  {
    hide Conserved, Ends, AtBoundary, Queued, Ahead, Flatten, Terminated, NoNewline, Weight;
    WeightPush(s.queue, s.producer.message);
    assert Pipeline(s)[|s.queue|] == s.producer.message;
  }

  lemma PollWorks(c: System, s: State, n: nat)
    requires Inv(c, s) && n > 0 && PollStep(s, n) != s
    ensures Work(PollStep(s, n)) < Work(s)
  {
    assert s.pos <= |s.buf|;
    hide Inv, Flatten;
    var t := PollStep(s, n);
    if s.pos >= |s.buf| {
      assert s.delivered + [] == s.delivered;
      QueueHead(c, s);
      var w := if s.queue[0].Ok? then |s.queue[0].value| else 1;
      assert Weight(s.queue) == w + Weight(t.queue);
      assert |t.buf| - t.pos < w;
    } else {
      assert |t.buf| - t.pos < |s.buf| - s.pos;
      assert t.queue == s.queue;
    }
  }

  /** No livelock: every action that changes the state, polls with room included, leaves
      strictly less to be done, so a run has at most `Work(Initial(c))` such actions. */
  lemma EveryMoveWorks(c: System, s: State, a: Action)
    requires Inv(c, s) && Do(c, s, a) != s && (a.PollWith? ==> a.n > 0)
    ensures Inv(c, Do(c, s, a)) && Work(Do(c, s, a)) < Work(s)
  {
    hide Work, FillStep, SendStep, PollStep;
    DoInv(c, s, a);
    match a
    case Fill => FillWorks(c, s);
    case Send => SendWorks(c, s);
    case PollWith(n) => PollWorks(c, s, n);
  }

  /** From every state on, the stream can be served to its end. */
  lemma {:induction false} CanFinish(c: System, s: State) returns (actions: seq<Action>)
    requires Inv(c, s)
    ensures Finished(Exec(c, s, actions))
    decreases Work(s)
  {
    hide Inv, Do, Work;
    if Finished(s) {
      actions := [];
    } else {
      var a := SomeActionMoves(c, s);
      EveryMoveWorks(c, s, a);
      var rest := CanFinish(c, Do(c, s, a));
      actions := [a] + rest;
      assert actions[1..] == rest;
    }
  }
}
