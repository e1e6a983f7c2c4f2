/** When a consumer's `read_line` can be suspended on bytes it has already taken: the claim
    that it never is fails exactly for sources whose last line is not ended. */
module LineSuspension {
  import opened Options
  import opened LineReader
  import opened LineStream
  import opened LineGuarantees

  /** A poll is told to wait when the consumer holds part of a line with no newline yet. */
  ghost predicate WaitsInLine(c: System, actions: seq<Action>, n: nat) {
    var s := Run(c, actions);
    PollOf(s, n).poll.Pending? && s.delivered != [] && !Terminated(s.delivered)
  }

  // ---- what has been sent is whole lines within the limit ----

  /** The bytes that have left the producer's loop. */
  function Sent(s: State): seq<Byte>
    requires s.pos <= |s.buf|
  {
    s.delivered + Unserved(s) + Queued(Pipeline(s))
  }

  ghost predicate SentInv(c: System, s: State) {
    && s.pos <= |s.buf| && LinesFit(Sent(s))
    && (Sent(s) == [] || Terminated(Sent(s)) || (Sent(s) == c.Source() && c.failure.None?))
  }

  lemma FirstLineTwice(s: seq<Byte>)
    ensures FirstLine(FirstLine(s)) == FirstLine(s)
  {
    var l := FirstLine(s);
    if NewlineAt(s).Some? {
      assert l[..|l| - 1] == s[..|l| - 1];
      TakenIs(l, |l| - 1);
    } else {
      assert l == s;
    }
  }

  lemma FirstLineOfConcat(x: seq<Byte>, l: seq<Byte>)
    requires Terminated(x)
    ensures FirstLine(x + l) == FirstLine(x) && |FirstLine(x)| > 0
    ensures x[|FirstLine(x)|..] == [] || Terminated(x[|FirstLine(x)|..])
  {
    assert x[|x| - 1] == NEWLINE;
    var n := NewlineAt(x).value;
    assert (x + l)[..n] == x[..n];
    TakenIs(x + l, n);
  }

  lemma {:induction false} LinesFitConcat(x: seq<Byte>, l: seq<Byte>)
    requires LinesFit(x) && (x == [] || Terminated(x)) && |l| <= MAX_LINE_SIZE && FirstLine(l) == l
    ensures LinesFit(x + l)
    decreases |x|
  {
    hide FirstLine, Terminated;
    if x == [] {
      assert x + l == l && l[|l|..] == [];
    } else {
      var n := |FirstLine(x)|;
      FirstLineOfConcat(x, l);
      LinesFitStep(x);
      LinesFitConcat(x[n..], l);
      assert (x + l)[n..] == x[n..] + l;
    }
  }

  lemma SentAhead(c: System, s: State)
    requires Inv(c, s)
    ensures s.pos <= |s.buf| && Sent(s) + Ahead(s) == c.Source()
  {
    hide Queued, Ahead, WholeLines, Ends, AtBoundary;
  }

  /** Where nothing new becomes a message, what has been sent stays the same. */
  lemma SentSame(c: System, s: State, t: State)
    requires Inv(c, s) && Inv(c, t) && Ahead(t) == Ahead(s) && SentInv(c, s)
    ensures SentInv(c, t)
  {
    hide Inv, Ahead, Sent, LinesFit, Terminated;
    SentAhead(c, s);
    SentAhead(c, t);
    assert |Sent(s)| == |Sent(t)|;
    assert Sent(s) == c.Source()[..|Sent(s)|] == Sent(t);
  }

  lemma InitialSent(c: System)
    requires c.Valid()
    ensures SentInv(c, Initial(c))
  {
    assert Pipeline(Initial(c)) == [] && Sent(Initial(c)) == [];
  }

  lemma FillSent(c: System, s: State)
    requires Inv(c, s) && SentInv(c, s)
    ensures SentInv(c, FillStep(c, s))
  {
    var t := FillStep(c, s);
    FillInv(c, s);
    if s.producer.Reading? && t.producer.Sending? && t.producer.message.Ok? {
      LineSent(c, s);
    } else {
      FillAhead(c, s);
      SentSame(c, s, t);
    }
  }

  lemma FillAhead(c: System, s: State)
    requires Inv(c, s)
    requires !(s.producer.Reading? && FillStep(c, s).producer.Sending? && FillStep(c, s).producer.message.Ok?)
    ensures Ahead(FillStep(c, s)) == Ahead(s)
  {
    hide Queued, WholeLines, Ends, AtBoundary, Flatten, Terminated, Taken, NewlineAt, NoNewline, Rechunk;
    hide Conserved, Pipeline;
    if s.producer.Reading? {
      if s.unread == [] {
        FlattenNone();
      } else {
        FillMoves(c, s);
      }
    }
  }

  /** The line a pass has read to its end is sent behind whole lines. */
  lemma LineSent(c: System, s: State)
    requires Inv(c, s) && SentInv(c, s) && Inv(c, FillStep(c, s))
    requires s.producer.Reading? && FillStep(c, s).producer.Sending? && FillStep(c, s).producer.message.Ok?
    ensures SentInv(c, FillStep(c, s))
  {
    hide LinesFit, FirstLine, Inv, Terminated, Queued, Flatten, NewlineAt, Taken, Rechunk;
    var t := FillStep(c, s);
    var line := t.producer.message.value;
    SendsFirstLine(c, s);
    SentLine(c, s);
    FirstLineTwice(s.producer.line + Flatten(s.unread));
    SentAhead(c, s);
    SentAhead(c, t);
    QueuedConcat(s.queue, [t.producer.message]);
    QueuedOne(line);
    assert Pipeline(s) == s.queue && Pipeline(t) == s.queue + [t.producer.message];
    assert Sent(t) == Sent(s) + line;
    assert Sent(s) != c.Source();
    LinesFitConcat(Sent(s), line);
    TerminatedEnd(Sent(s), line);
    if !Terminated(line) { assert Sent(t) + [] == Sent(t); }
  }

  lemma TerminatedEnd(x: seq<Byte>, line: seq<Byte>)
    ensures line != [] ==> (Terminated(x + line) <==> Terminated(line))
  {
    if line != [] { assert (x + line)[|x + line| - 1] == line[|line| - 1]; }
  }

  lemma SentLine(c: System, s: State)
    requires Inv(c, s)
    requires s.producer.Reading? && FillStep(c, s).producer.Sending? && FillStep(c, s).producer.message.Ok?
    ensures var t := FillStep(c, s); var line := t.producer.message.value;
            && line != [] && Ahead(s) == line + Ahead(t) && t.queue == s.queue
            && (!Terminated(line) ==> Ahead(t) == [] && c.failure.None?)
  {
    hide Queued, WholeLines, Ends, AtBoundary, Flatten, Terminated, Taken, NewlineAt, NoNewline, Rechunk, Conserved;
    if s.unread == [] {
      FlattenNone();
    } else {
      FillMoves(c, s);
    }
  }

  lemma DoSent(c: System, s: State, a: Action)
    requires Inv(c, s) && SentInv(c, s)
    ensures SentInv(c, Do(c, s, a))
  {
    hide Inv, SentInv, FillStep, Flatten;
    DoInv(c, s, a);
    match a
    case Fill => FillSent(c, s);
    case Send => SendAhead(c, s); SentSame(c, s, SendStep(c, s));
    case PollWith(n) => SentSame(c, s, PollStep(s, n));
  }

  lemma SendAhead(c: System, s: State)
    ensures Ahead(SendStep(c, s)) == Ahead(s)
  {
    hide Flatten;
  }

  lemma {:induction false} ExecSent(c: System, s: State, actions: seq<Action>)
    requires Inv(c, s) && SentInv(c, s)
    ensures Inv(c, Exec(c, s, actions)) && SentInv(c, Exec(c, s, actions))
    decreases |actions|
  {
    hide Inv, SentInv, Do;
    if actions != [] {
      DoInv(c, s, actions[0]);
      DoSent(c, s, actions[0]);
      ExecSent(c, Do(c, s, actions[0]), actions[1..]);
    }
  }

  /** A poll that waits inside a line: all is out, every line fitted, and the last is not ended. */
  lemma WaitingMeansUnended(c: System, actions: seq<Action>, n: nat)
    requires c.Valid() && WaitsInLine(c, actions, n)
    ensures Run(c, actions).delivered == c.Source()
    ensures c.Source() != [] && !Terminated(c.Source()) && LinesFit(c.Source()) && c.failure.None?
  {
    hide Exec, Initial, Inv, LinesFit, Queued, Ahead, Pipeline, Terminated;
    var s := Run(c, actions);
    NeverPendingInsideLine(c, actions, n);
    InitialInv(c);
    InitialSent(c);
    ExecSent(c, Initial(c), actions);
    SentAhead(c, s);
    assert Sent(s)[..|s.delivered|] == s.delivered;
  }

  // ---- and such a source can always be brought there ----

  /** All is out, and the producer is about to find the end of the source. */
  predicate Drained(s: State) {
    s.producer == Reading([]) && s.unread == [] && s.queue == [] && s.pos >= |s.buf|
  }

  lemma KeepsReading(c: System, s: State) returns (a: Action)
    requires Inv(c, s) && Sound(c, s) && c.failure.None? && !s.producer.Stopped? && !Drained(s)
    ensures Do(c, s, a) != s && (a.PollWith? ==> a.n == 1) && !Do(c, s, a).producer.Stopped?
  {
    hide Conserved, WholeLines, Ends, AtBoundary, Queued, Ahead, Flatten, Terminated, NoNewline, Taken;
    hide NewlineAt, LinesFit;
    if s.pos < |s.buf| || s.queue != [] {
      a := PollWith(1);
      if s.pos >= |s.buf| {
        assert PollStep(s, 1).queue == s.queue[1..];
      } else {
        assert PollStep(s, 1).delivered == s.delivered + s.buf[s.pos..s.pos + 1];
      }
    } else if s.producer.Reading? {
      a := Fill;
      if s.unread != [] {
        var available := s.unread[0];
        assert |s.producer.line + available[..Taken(available)]| > |s.producer.line|;
      }
    } else {
      a := Send;
    }
  }

  lemma {:induction false} CanDrain(c: System, s: State) returns (actions: seq<Action>)
    requires Inv(c, s) && Sound(c, s) && c.failure.None? && !s.producer.Stopped?
    ensures Drained(Exec(c, s, actions)) && Inv(c, Exec(c, s, actions))
    decreases Work(s)
  {
    hide Inv, Sound, Do, Work;
    if Drained(s) {
      actions := [];
    } else {
      var a := KeepsReading(c, s);
      EveryMoveWorks(c, s, a);
      DoSound(c, s, a);
      var rest := CanDrain(c, Do(c, s, a));
      actions := [a] + rest;
      assert actions[1..] == rest;
    }
  }

  lemma DrainedWaits(c: System, s: State)
    requires Inv(c, s) && Drained(s) && c.failure.None?
    ensures s.delivered == c.Source() && PollOf(s, 1).poll.Pending?
  {
    hide WholeLines, Ends, AtBoundary;
    FlattenNone();
    assert Pipeline(s) == [] && Unserved(s) == [];
    assert s.delivered + [] + [] + [] == s.delivered;
  }

  lemma UnendedWaits(c: System) returns (actions: seq<Action>)
    requires c.Valid() && c.failure.None?
    requires c.Source() != [] && !Terminated(c.Source()) && LinesFit(c.Source())
    ensures WaitsInLine(c, actions, 1)
  {
    hide Inv, Sound, Exec, LinesFit, Flatten, Terminated, Drained;
    InitialInv(c);
    InitialSound(c);
    actions := CanDrain(c, Initial(c));
    DrainedWaits(c, Run(c, actions));
  }

  /** Some run has a poll wait inside a line exactly when the source ends without a newline, no
      line of it is oversized, and it does not break. */
  lemma WaitsInLineIff(c: System)
    requires c.Valid()
    ensures (exists actions, n: nat :: WaitsInLine(c, actions, n))
       <==> c.Source() != [] && !Terminated(c.Source()) && LinesFit(c.Source()) && c.failure.None?
  {
    hide WaitsInLine, LinesFit, Flatten, Terminated;
    if actions, n: nat :| WaitsInLine(c, actions, n) {
      WaitingMeansUnended(c, actions, n);
    }
    if c.Source() != [] && !Terminated(c.Source()) && LinesFit(c.Source()) && c.failure.None? {
      var actions := UnendedWaits(c);
    }
  }

  /** A source of one byte that is no newline: the byte is out, and the next poll waits. */
  lemma OneByteWaits(b: Byte)
    requires b != NEWLINE
    ensures var c := System([[b]], None, 64);
            c.Valid() && WaitsInLine(c, [Fill, Fill, Send, PollWith(8)], 8)
            && Run(c, [Fill, Fill, Send, PollWith(8)]).delivered == [b]
  {
    var c := System([[b]], None, 64);
    var s0 := Initial(c);
    assert [b][..1] == [b] && [b][1..] == [] && [] + [b] == [b];
    var s1 := FillStep(c, s0);
    assert s1 == State([], Reading([b]), [], [], 0, [], []);
    var s2 := FillStep(c, s1);
    assert s2 == State([], Sending(Ok([b])), [], [], 0, [], []);
    var s3 := SendStep(c, s2);
    assert s3 == State([], Reading([]), [Ok([b])], [], 0, [], []);
    var s4 := PollStep(s3, 8);
    assert s4 == State([], Reading([]), [], [], 0, [b], []);
    assert [Fill, Fill, Send, PollWith(8)][1..] == [Fill, Send, PollWith(8)];
    assert [Fill, Send, PollWith(8)][1..] == [Send, PollWith(8)];
    assert [Send, PollWith(8)][1..] == [PollWith(8)];
    assert [PollWith(8)][1..] == [];
    assert Exec(c, s3, [PollWith(8)]) == s4;
    assert Exec(c, s2, [Send, PollWith(8)]) == s4;
    assert Exec(c, s1, [Fill, Send, PollWith(8)]) == s4;
  }
}
