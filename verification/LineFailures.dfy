/** How a stream fails: a source that breaks or holds an oversized line answers with one error,
    before any end of file, and the error says which. */
module LineFailures {
  import opened Options
  import opened LineReader
  import opened LineStream
  import opened LineGuarantees
  import opened LineSuspension

  // ---- what a source must fail with ----

  /** The source ends a chunk at position `k`. */
  ghost predicate ChunkEnd(chunks: seq<seq<Byte>>, k: nat) {
    exists j :: 0 <= j <= |chunks| && |Flatten(chunks[..j])| == k
  }

  predicate Failing(c: System) {
    c.failure.Some? || !LinesFit(Flatten(c.chunks))
  }

  /** The source breaks on `rest`, in which no line ends and none is oversized. */
  predicate BreaksOn(c: System, rest: seq<Byte>, code: string) {
    c.failure == Some(code) && NoNewline(rest) && |rest| <= MAX_LINE_SIZE
  }

  /** The line at `start`, with which `rest` begins, is oversized, and is given up after `n` bytes:
      at the first end of a chunk or of the line beyond the limit. */
  ghost predicate GivenUp(c: System, start: nat, rest: seq<Byte>, n: nat) {
    && MAX_LINE_SIZE < n <= |FirstLine(rest)|
    && (n == |FirstLine(rest)| || ChunkEnd(c.chunks, start + n))
    && forall k: nat :: start + MAX_LINE_SIZE < k < start + n ==> !ChunkEnd(c.chunks, k)
  }

  /** `e` is the failure behind the whole lines `sent`. */
  ghost predicate IsFailure(c: System, sent: seq<Byte>, e: ReadError) {
    && sent <= c.Source() && LinesFit(sent) && (sent == [] || Terminated(sent))
    && var rest := c.Source()[|sent|..];
       match e
       case Io(code) => BreaksOn(c, rest, code)
       case TooLong(n) => GivenUp(c, |sent|, rest, n)
  }

  lemma {:induction false} LinesFitSplit(x: seq<Byte>, y: seq<Byte>)
    requires LinesFit(x + y) && (x == [] || Terminated(x))
    ensures LinesFit(y)
    decreases |x|
  {
    hide FirstLine, Terminated;
    if x == [] {
      assert x + y == y;
    } else {
      FirstLineOfConcat(x, y);
      LinesFitStep(x + y);
      var n := |FirstLine(x)|;
      FirstLineInside(x);
      assert (x + y)[n..] == x[n..] + y;
      LinesFitSplit(x[n..], y);
    }
  }

  lemma FirstLineInside(s: seq<Byte>)
    ensures FirstLine(s) <= s
  {
  }

  lemma OneLineFits(s: seq<Byte>)
    requires NoNewline(s) && |s| <= MAX_LINE_SIZE
    ensures LinesFit(s) && FirstLine(s) == s
  {
    AllTaken(s);
    assert s[|s|..] == [];
  }

  /** The failure is an oversized line exactly when the source holds one. */
  lemma FailureKind(c: System, sent: seq<Byte>, e: ReadError)
    requires IsFailure(c, sent, e)
    ensures Failing(c)
    ensures e.TooLong? <==> !LinesFit(c.Source())
  {
    hide FirstLine, LinesFit, Terminated, NoNewline, ChunkEnd, Flatten;
    var rest := c.Source()[|sent|..];
    assert sent + rest == c.Source();
    if e.TooLong? {
      if LinesFit(c.Source()) {
        LinesFitSplit(sent, rest);
        LinesFitStep(rest);
        FirstLineInside(rest);
      }
    } else {
      OneLineFits(rest);
      LinesFitConcat(sent, rest);
    }
  }

  /** Nothing more of `rest` can be sent. */
  predicate Stuck(rest: seq<Byte>) {
    NoNewline(rest) || |FirstLine(rest)| > MAX_LINE_SIZE
  }

  /** The whole lines ahead of a failure are those ahead of every other. */
  lemma {:induction false} SameLines(a: seq<Byte>, x: seq<Byte>, b: seq<Byte>, y: seq<Byte>)
    requires a + x == b + y && LinesFit(a) && LinesFit(b) && Stuck(x) && Stuck(y)
    requires (a == [] || Terminated(a)) && (b == [] || Terminated(b))
    ensures a == b
    decreases |a|
  {
    hide LinesFit, Stuck, Terminated, FirstLine;
    if a == [] {
      assert [] + x == x;
      if b != [] { NotAhead(b, y); }
    } else if b == [] {
      assert [] + y == y;
      NotAhead(a, x);
    } else {
      FirstLineOfConcat(a, x);
      FirstLineOfConcat(b, y);
      LinesFitStep(a);
      LinesFitStep(b);
      FirstLineInside(a);
      FirstLineInside(b);
      var n := |FirstLine(a)|;
      assert (a + x)[n..] == a[n..] + x && (b + y)[n..] == b[n..] + y;
      SameLines(a[n..], x, b[n..], y);
      assert a == a[..n] + a[n..] && b == b[..n] + b[n..];
    }
  }

  lemma NotAhead(b: seq<Byte>, y: seq<Byte>)
    requires b != [] && LinesFit(b) && Terminated(b)
    ensures !Stuck(b + y)
  {
    hide LinesFit;
    FirstLineOfConcat(b, y);
    LinesFitStep(b);
    assert (b + y)[|b| - 1] == b[|b| - 1];
  }

  /** There is one failure at most that a source can have. */
  lemma FailureUnique(c: System, a: seq<Byte>, e: ReadError, b: seq<Byte>, f: ReadError)
    requires IsFailure(c, a, e) && IsFailure(c, b, f)
    ensures a == b && e == f
  {
    FailureKind(c, a, e);
    FailureKind(c, b, f);
    var source := c.Source();
    var x, y := source[|a|..], source[|b|..];
    assert a + x == source == b + y;
    hide FirstLine, LinesFit, Terminated, NoNewline, ChunkEnd, Flatten;
    SameLines(a, x, b, y);
  }

  // ---- what is left of the chunks ----

  /** Nothing, or the rest of a chunk and the chunks behind it. */
  ghost predicate LeftOf(chunks: seq<seq<Byte>>, unread: seq<seq<Byte>>) {
    unread == [] || exists j: nat, t: nat :: At(chunks, unread, j, t)
  }

  ghost predicate At(chunks: seq<seq<Byte>>, unread: seq<seq<Byte>>, j: nat, t: nat) {
    j < |chunks| && t < |chunks[j]| && unread == [chunks[j][t..]] + chunks[j + 1..]
  }

  lemma LeftFrom(chunks: seq<seq<Byte>>, j: nat)
    requires j <= |chunks| && forall k :: 0 <= k < |chunks| ==> chunks[k] != []
    ensures LeftOf(chunks, chunks[j..])
  {
    if j < |chunks| {
      assert chunks[j][0..] == chunks[j];
      assert At(chunks, chunks[j..], j, 0);
    }
  }

  lemma LeftShrinks(chunks: seq<seq<Byte>>, unread: seq<seq<Byte>>, n: nat)
    requires LeftOf(chunks, unread) && unread != [] && n <= |unread[0]|
    requires forall k :: 0 <= k < |chunks| ==> chunks[k] != []
    ensures LeftOf(chunks, Rechunk(unread[0][n..], unread[1..]))
  {
    var j: nat, t: nat :| At(chunks, unread, j, t);
    assert unread[1..] == chunks[j + 1..];
    if n == |unread[0]| {
      LeftFrom(chunks, j + 1);
    } else {
      assert unread[0][n..] == chunks[j][t + n..];
      assert At(chunks, Rechunk(unread[0][n..], unread[1..]), j, t + n);
    }
  }

  lemma {:induction false} FlattenConcat(a: seq<seq<Byte>>, b: seq<seq<Byte>>)
    ensures Flatten(a + b) == Flatten(a) + Flatten(b)
  {
    if a == [] {
      assert a + b == b;
    } else {
      assert (a + b)[1..] == a[1..] + b;
      FlattenConcat(a[1..], b);
    }
  }

  lemma PrefixGrows(chunks: seq<seq<Byte>>, i: nat, j: nat)
    requires i <= j <= |chunks|
    ensures |Flatten(chunks[..i])| <= |Flatten(chunks[..j])|
  {
    assert chunks[..j] == chunks[..i] + chunks[i..j];
    FlattenConcat(chunks[..i], chunks[i..j]);
  }

  /** What is at hand ends where a chunk ends, and no chunk ends inside it. */
  lemma ChunkAtHand(chunks: seq<seq<Byte>>, unread: seq<seq<Byte>>, pos: nat)
    requires LeftOf(chunks, unread) && unread != [] && pos + |Flatten(unread)| == |Flatten(chunks)|
    ensures ChunkEnd(chunks, pos + |unread[0]|)
    ensures forall k: nat :: pos < k < pos + |unread[0]| ==> !ChunkEnd(chunks, k)
  {
    var j: nat, t: nat :| At(chunks, unread, j, t);
    hide Flatten;
    PlaceAtHand(chunks, unread, pos, j, t);
    forall k: nat | pos < k < pos + |unread[0]| ensures !ChunkEnd(chunks, k) {
      NoEndInside(chunks, j, k);
    }
  }

  lemma NoEndInside(chunks: seq<seq<Byte>>, j: nat, k: nat)
    requires j < |chunks| && |Flatten(chunks[..j])| < k < |Flatten(chunks[..j + 1])|
    ensures !ChunkEnd(chunks, k)
  {
    hide Flatten;
    if i :| 0 <= i <= |chunks| && |Flatten(chunks[..i])| == k {
      if i <= j { PrefixGrows(chunks, i, j); } else { PrefixGrows(chunks, j + 1, i); }
    }
  }

  /** Where the rest of chunk `j` behind its first `t` bytes stands in the source. */
  lemma PlaceAtHand(chunks: seq<seq<Byte>>, unread: seq<seq<Byte>>, pos: nat, j: nat, t: nat)
    requires At(chunks, unread, j, t) && pos + |Flatten(unread)| == |Flatten(chunks)|
    ensures pos == |Flatten(chunks[..j])| + t && |Flatten(chunks[..j + 1])| == pos + |unread[0]|
  {
    hide Flatten;
    var front, back := chunks[..j], chunks[j + 1..];
    assert chunks == front + ([chunks[j]] + back);
    assert chunks[..j + 1] == front + [chunks[j]];
    FlattenConcat(front, [chunks[j]] + back);
    FlattenConcat([chunks[j]], back);
    FlattenConcat(front, [chunks[j]]);
    FlattenConcat([unread[0]], back);
    FlattenOne(chunks[j]);
    FlattenOne(unread[0]);
  }

  lemma FlattenOne(chunk: seq<Byte>)
    ensures Flatten([chunk]) == chunk
  {
    assert [chunk][1..] == [] && chunk + [] == chunk;
  }

  // ---- the errors on their way and those already answered ----

  function Errors(ms: seq<Message>): seq<ReadError> {
    if ms == [] then [] else (if ms[0].Err? then [ms[0].error] else []) + Errors(ms[1..])
  }

  lemma ErrorsCons(m: Message, ms: seq<Message>)
    ensures Errors([m] + ms) == (if m.Err? then [m.error] else []) + Errors(ms)
  {
    assert ([m] + ms)[1..] == ms;
  }

  lemma Associates<T>(a: seq<T>, b: seq<T>, c: seq<T>)
    ensures a + b + c == a + (b + c)
  {
  }

  lemma {:induction false} ErrorsConcat(a: seq<Message>, b: seq<Message>)
    ensures Errors(a + b) == Errors(a) + Errors(b)
  {
    if a == [] {
      assert a + b == b && [] + Errors(b) == Errors(b);
    } else {
      hide Errors;
      var m, rest := a[0], a[1..];
      ErrorsConcat(rest, b);
      ErrorsCons(m, rest);
      ErrorsCons(m, rest + b);
      assert a == [m] + rest;
      Associates([m], rest, b);
      Associates(if m.Err? then [m.error] else [], Errors(rest), Errors(b));
    }
  }

  lemma ErrorsOfOne(m: Message)
    ensures Errors([m]) == if m.Err? then [m.error] else []
  {
    assert [m][1..] == [];
  }

  /** All that has been sent when the producer is done for: everything, or the lines ahead of the
      one failure. */
  ghost predicate Ended(c: System, sent: seq<Byte>, errors: seq<ReadError>) {
    if errors == [] then sent == c.Source() && !Failing(c)
    else |errors| == 1 && IsFailure(c, sent, errors[0])
  }

  /** `seen` are the errors the consumer has been answered. */
  ghost predicate ErrorInv(c: System, s: State, seen: seq<ReadError>) {
    && s.pos <= |s.buf| && LeftOf(c.chunks, s.unread)
    && if Healthy(s.producer) then seen + Errors(Pipeline(s)) == []
       else Ended(c, Sent(s), seen + Errors(Pipeline(s)))
  }

  lemma InitialErrors(c: System)
    requires c.Valid()
    ensures ErrorInv(c, Initial(c), [])
  {
    hide Sent, Ended, LeftOf, Flatten;
    assert c.chunks[0..] == c.chunks;
    LeftFrom(c.chunks, 0);
    NothingPiped(c);
  }

  lemma NothingPiped(c: System)
    ensures Errors(Pipeline(Initial(c))) == []
  {
    assert Pipeline(Initial(c)) == [];
  }

  lemma SentKept(c: System, s: State, t: State)
    requires Inv(c, s) && Inv(c, t) && Ahead(t) == Ahead(s)
    ensures s.pos <= |s.buf| && t.pos <= |t.buf| && Sent(t) == Sent(s)
  {
    hide Inv, Ahead, Sent;
    SentAhead(c, s);
    SentAhead(c, t);
    assert |Sent(s)| == |Sent(t)|;
    assert Sent(s) == c.Source()[..|Sent(s)|] == Sent(t);
  }

  /** The source has been read to its end. */
  lemma FillAtEnd(c: System, s: State, seen: seq<ReadError>)
    requires Inv(c, s) && SentInv(c, s) && ErrorInv(c, s, seen) && s.producer.Reading? && s.unread == []
    ensures ErrorInv(c, FillStep(c, s), seen)
  {
    var t, line := FillStep(c, s), s.producer.line;
    FillInv(c, s);
    LineAtEnd(c, s);
    SentIs(c, s);
    hide LinesFit, Flatten, Terminated, LeftOf, Errors, FirstLine, Inv, SentInv, Sent, NoNewline;
    if c.failure.Some? {
      FillAhead(c, s);
      SentKept(c, s, t);
      Joins(s, t, Err(Io(c.failure.value)), seen);
      IsBreak(c, Sent(s), line, c.failure.value);
    } else if line == [] {
      FillAhead(c, s);
      SentKept(c, s, t);
      assert Pipeline(t) == Pipeline(s);
      assert Sent(s) + [] == Sent(s);
    } else {
      Joins(s, t, Ok(line), seen);
    }
  }

  /** With the source read to its end, the line so far is all that is not sent. */
  lemma LineAtEnd(c: System, s: State)
    requires Inv(c, s) && s.producer.Reading? && s.unread == []
    ensures s.pos <= |s.buf| && Sent(s) + s.producer.line == c.Source()
    ensures NoNewline(s.producer.line) && |s.producer.line| <= MAX_LINE_SIZE && LinesFit(s.producer.line)
  {
    FlattenNone();
    LineSoFar(c, s);
    SentAhead(c, s);
    hide Inv, Sent, LinesFit, FirstLine;
    assert Ahead(s) == s.producer.line;
    OneLineFits(s.producer.line);
  }

  /** A message joins a pipeline that holds no error. */
  lemma Joins(s: State, t: State, m: Message, seen: seq<ReadError>)
    requires seen + Errors(Pipeline(s)) == [] && Pipeline(t) == Pipeline(s) + [m]
    ensures seen + Errors(Pipeline(t)) == if m.Err? then [m.error] else []
  {
    hide Pipeline, Errors;
    ErrorsConcat(Pipeline(s), [m]);
    ErrorsOfOne(m);
    assert seen == [] && Errors(Pipeline(s)) == [];
  }

  /** One chunk is at hand. */
  lemma FillOnChunk(c: System, s: State, seen: seq<ReadError>)
    requires Inv(c, s) && SentInv(c, s) && ErrorInv(c, s, seen) && s.producer.Reading? && s.unread != []
    ensures ErrorInv(c, FillStep(c, s), seen)
  {
    var t, line, available := FillStep(c, s), s.producer.line, s.unread[0];
    var n := Taken(available);
    var read := line + available[..n];
    FillInv(c, s);
    LeftShrinks(c.chunks, s.unread, n);
    assert Pipeline(s) == s.queue;
    hide LinesFit, Flatten, Queued, WholeLines, Ends, AtBoundary, Terminated, Conserved, ChunkEnd, LeftOf, Errors;
    hide FirstLine, NewlineAt, Taken, Rechunk;
    if t.producer.Reading? {
      assert Pipeline(t) == s.queue;
    } else {
      var m := t.producer.message;
      Joins(s, t, m, seen);
      if m.Err? {
        FillAhead(c, s);
        SentKept(c, s, t);
        Overrun(c, s);
      }
    }
  }

  /** What is left of the source: the line so far, what is at hand, and the rest. */
  lemma AtHand(c: System, s: State)
    requires Inv(c, s) && s.producer.Reading? && s.unread != []
    ensures s.pos <= |s.buf| && Sent(s) + (s.producer.line + (s.unread[0] + Flatten(s.unread[1..]))) == c.Source()
    ensures |Sent(s)| + |s.producer.line| + |Flatten(s.unread)| == |c.Source()|
  {
    SentAhead(c, s);
    LineSoFar(c, s);
    hide Inv, Sent;
    var line, available, rest := s.producer.line, s.unread[0], s.unread[1..];
    assert Flatten(s.unread) == available + Flatten(rest);
    assert Ahead(s) == line + [] + (available + Flatten(rest)) == line + (available + Flatten(rest));
  }

  /** The pass that gives up an oversized line. */
  lemma Overrun(c: System, s: State)
    requires Inv(c, s) && SentInv(c, s) && LeftOf(c.chunks, s.unread) && s.producer.Reading? && s.unread != []
    requires var read := s.producer.line + s.unread[0][..Taken(s.unread[0])]; |read| > MAX_LINE_SIZE
    ensures IsFailure(c, Sent(s), TooLong(|s.producer.line + s.unread[0][..Taken(s.unread[0])]|))
  {
    var line, available, rest := s.producer.line, s.unread[0], s.unread[1..];
    var n, sent := Taken(available), Sent(s);
    var read, todo := line + available[..n], line + (available + Flatten(rest));
    hide *;
    AtHand(c, s);
    LineSoFar(c, s);
    ReadStep(line, available, Flatten(rest));
    TakenAll(available);
    ChunkAtHand(c.chunks, s.unread, |sent| + |line|);
    SentIs(c, s);
    AtEndOfChunk(c, |sent|, todo, |read|);
    IsOverrun(c, sent, todo, |read|);
  }

  lemma AtEndOfChunk(c: System, start: nat, rest: seq<Byte>, n: nat)
    requires MAX_LINE_SIZE < n <= |FirstLine(rest)| && (n == |FirstLine(rest)| || ChunkEnd(c.chunks, start + n))
    requires forall k: nat :: start + MAX_LINE_SIZE < k < start + n ==> !ChunkEnd(c.chunks, k)
    ensures GivenUp(c, start, rest, n)
  {
  }

  lemma TakenAll(available: seq<Byte>)
    ensures Taken(available) <= |available| && (NewlineAt(available).None? ==> Taken(available) == |available|)
  {
  }

  lemma SentIs(c: System, s: State)
    requires SentInv(c, s)
    ensures s.pos <= |s.buf| && LinesFit(Sent(s))
    ensures Sent(s) == [] || Terminated(Sent(s)) || (Sent(s) == c.Source() && c.failure.None?)
  {
    hide LinesFit, Terminated;
  }

  lemma IsOverrun(c: System, sent: seq<Byte>, rest: seq<Byte>, n: nat)
    requires sent + rest == c.Source() && LinesFit(sent) && (sent == [] || Terminated(sent))
    requires GivenUp(c, |sent|, rest, n)
    ensures IsFailure(c, sent, TooLong(n))
  {
    hide LinesFit, Terminated, GivenUp, Flatten;
    assert c.Source()[|sent|..] == rest;
  }

  lemma IsBreak(c: System, sent: seq<Byte>, rest: seq<Byte>, code: string)
    requires sent + rest == c.Source() && LinesFit(sent) && (sent == [] || Terminated(sent))
    requires BreaksOn(c, rest, code)
    ensures IsFailure(c, sent, Io(code))
  {
    hide LinesFit, Terminated, BreaksOn, Flatten;
    assert c.Source()[|sent|..] == rest;
  }

  lemma LineSoFar(c: System, s: State)
    requires Inv(c, s) && s.producer.Reading?
    ensures NoNewline(s.producer.line) && |s.producer.line| <= MAX_LINE_SIZE && s.lost == []
  {
  }

  lemma SendErrors(c: System, s: State, seen: seq<ReadError>)
    requires Inv(c, s) && ErrorInv(c, s, seen)
    ensures ErrorInv(c, SendStep(c, s), seen)
  {
    var t := SendStep(c, s);
    SendInv(c, s);
    SendAhead(c, s);
    SentKept(c, s, t);
    assert Pipeline(t) == Pipeline(s);
    hide Inv, LeftOf, Errors, Sent, Ended, Pipeline;
  }

  /** The error of a poll's answer. */
  function ErrorOf(poll: Poll): seq<ReadError> {
    if poll.Ready? && poll.result.Err? then [poll.result.error] else []
  }

  /** A poll takes an error off the queue and answers with it, or does neither. */
  lemma PollTakes(s: State, n: nat)
    ensures var t := PollStep(s, n); Ahead(t) == Ahead(s) && t.producer == s.producer && t.unread == s.unread
    ensures Errors(Pipeline(s)) == ErrorOf(PollOf(s, n).poll) + Errors(Pipeline(PollStep(s, n)))
  {
    var t := PollStep(s, n);
    hide Flatten, Errors;
    if s.pos >= |s.buf| && s.queue != [] {
      assert Pipeline(s) == [s.queue[0]] + Pipeline(t);
      ErrorsCons(s.queue[0], Pipeline(t));
    } else {
      assert Pipeline(s) == Pipeline(t);
      assert [] + Errors(Pipeline(t)) == Errors(Pipeline(t));
    }
  }

  lemma PollErrors(c: System, s: State, n: nat, seen: seq<ReadError>)
    requires Inv(c, s) && ErrorInv(c, s, seen)
    ensures ErrorInv(c, PollStep(s, n), seen + ErrorOf(PollOf(s, n).poll))
  {
    var t, e := PollStep(s, n), ErrorOf(PollOf(s, n).poll);
    hide Inv, LeftOf, Errors, Sent, Ended, Pipeline, ErrorOf, PollStep, Ahead;
    PollTakes(s, n);
    PollInv(c, s, n);
    SentKept(c, s, t);
    assert seen + (e + Errors(Pipeline(t))) == (seen + e) + Errors(Pipeline(t));
  }

  // ---- whole runs ----

  /** What the polls of a run are answered, in order. */
  function Replies(c: System, s: State, actions: seq<Action>): seq<Poll>
    decreases |actions|
  {
    if actions == [] then []
    else
      (if actions[0].PollWith? then [PollOf(s, actions[0].n).poll] else [])
      + Replies(c, Do(c, s, actions[0]), actions[1..])
  }

  function ErrorsIn(replies: seq<Poll>): seq<ReadError> {
    if replies == [] then [] else ErrorOf(replies[0]) + ErrorsIn(replies[1..])
  }

  lemma ErrorsInCons(reply: Poll, replies: seq<Poll>)
    ensures ErrorsIn([reply] + replies) == ErrorOf(reply) + ErrorsIn(replies)
  {
    assert ([reply] + replies)[1..] == replies;
  }

  lemma DoErrors(c: System, s: State, a: Action, seen: seq<ReadError>)
    requires Inv(c, s) && SentInv(c, s) && ErrorInv(c, s, seen)
    ensures ErrorInv(c, Do(c, s, a), seen + if a.PollWith? then ErrorOf(PollOf(s, a.n).poll) else [])
  {
    hide Inv, SentInv, ErrorInv, FillStep, SendStep, PollStep;
    assert seen + [] == seen;
    match a
    case Fill =>
      if s.producer.Reading? {
        if s.unread == [] { FillAtEnd(c, s, seen); } else { FillOnChunk(c, s, seen); }
      } else {
        FillIdle(c, s);
      }
    case Send => SendErrors(c, s, seen);
    case PollWith(n) => PollErrors(c, s, n, seen);
  }

  lemma FillIdle(c: System, s: State)
    requires !s.producer.Reading?
    ensures FillStep(c, s) == s
  {
  }

  lemma {:induction false} ExecErrors(c: System, s: State, actions: seq<Action>, seen: seq<ReadError>)
    requires Inv(c, s) && SentInv(c, s) && ErrorInv(c, s, seen)
    ensures var t := Exec(c, s, actions);
            Inv(c, t) && ErrorInv(c, t, seen + ErrorsIn(Replies(c, s, actions)))
    decreases |actions|
  {
    hide Inv, SentInv, ErrorInv, Do, PollOf, ErrorOf, ErrorsIn;
    if actions == [] {
      NoErrorsIn();
      assert seen + [] == seen;
    } else {
      var a, rest := actions[0], actions[1..];
      var next := Do(c, s, a);
      DoInv(c, s, a);
      DoSent(c, s, a);
      DoErrors(c, s, a, seen);
      var e := if a.PollWith? then ErrorOf(PollOf(s, a.n).poll) else [];
      ExecErrors(c, next, rest, seen + e);
      var later := Replies(c, next, rest);
      RepliesCons(c, s, actions);
      assert seen + (e + ErrorsIn(later)) == seen + e + ErrorsIn(later);
    }
  }

  lemma RepliesCons(c: System, s: State, actions: seq<Action>)
    requires actions != []
    ensures var a := actions[0];
            ErrorsIn(Replies(c, s, actions))
            == (if a.PollWith? then ErrorOf(PollOf(s, a.n).poll) else [])
               + ErrorsIn(Replies(c, Do(c, s, a), actions[1..]))
  {
    hide PollOf, Do, ErrorsIn, ErrorOf;
    var later := Replies(c, Do(c, s, actions[0]), actions[1..]);
    if actions[0].PollWith? {
      ErrorsInCons(PollOf(s, actions[0].n).poll, later);
    } else {
      assert [] + later == later && [] + ErrorsIn(later) == ErrorsIn(later);
    }
  }

  lemma NoErrorsIn()
    ensures ErrorsIn([]) == []
  {
  }

  /** The errors that the polls of a run are answered. */
  function ErrorsOfRun(c: System, actions: seq<Action>): seq<ReadError> {
    ErrorsIn(Replies(c, Initial(c), actions))
  }

  lemma RunErrors(c: System, actions: seq<Action>)
    requires c.Valid()
    ensures Inv(c, Run(c, actions)) && ErrorInv(c, Run(c, actions), ErrorsOfRun(c, actions))
  {
    hide Inv, SentInv, ErrorInv, Exec, Initial, Replies, ErrorsIn;
    InitialInv(c);
    InitialSent(c);
    InitialErrors(c);
    ExecErrors(c, Initial(c), actions, []);
    assert [] + ErrorsOfRun(c, actions) == ErrorsOfRun(c, actions);
  }

  lemma AllAnswered(c: System, s: State, seen: seq<ReadError>)
    requires Inv(c, s) && ErrorInv(c, s, seen) && Finished(s)
    ensures Ended(c, s.delivered, seen)
  {
    hide Inv, Ended, LeftOf;
    assert Pipeline(s) == [] && Unserved(s) == [];
    assert seen + [] == seen && s.delivered + [] + [] == s.delivered;
  }

  /** A run that is served to its end has answered with one error, the failure of the source, when
      it has one, and else with none; and it has delivered the whole lines ahead of it. */
  lemma FinishedReports(c: System, actions: seq<Action>)
    requires c.Valid() && Finished(Run(c, actions))
    ensures var errors, delivered := ErrorsOfRun(c, actions), Run(c, actions).delivered;
            if Failing(c) then |errors| == 1 && IsFailure(c, delivered, errors[0])
            else errors == [] && delivered == c.Source()
  {
    hide Inv, ErrorInv, Exec, Initial, Replies, ErrorsIn, Finished, Failing, IsFailure, Flatten;
    RunErrors(c, actions);
    AllAnswered(c, Run(c, actions), ErrorsOfRun(c, actions));
    var errors := ErrorsOfRun(c, actions);
    if errors != [] { FailureKind(c, Run(c, actions).delivered, errors[0]); }
  }

  /** On a source that fails no poll with room answers end of file before one has answered the
      failure. */
  lemma FailureComesFirst(c: System, actions: seq<Action>, n: nat)
    requires c.Valid() && Failing(c) && n > 0 && PollOf(Run(c, actions), n).poll == Ready(Ok(0))
    ensures Finished(Run(c, actions))
    ensures var errors := ErrorsOfRun(c, actions);
            |errors| == 1 && IsFailure(c, Run(c, actions).delivered, errors[0])
  {
    hide ErrorInv, Exec, Initial, Replies, ErrorsIn, Failing, IsFailure, Flatten;
    RunErrors(c, actions);
    EofIsFinished(c, Run(c, actions), n);
    hide Finished;
    FinishedReports(c, actions);
  }

  lemma EofIsFinished(c: System, s: State, n: nat)
    requires Inv(c, s) && n > 0 && PollOf(s, n).poll == Ready(Ok(0))
    ensures Finished(s)
  {
    hide Conserved, WholeLines, Ends, AtBoundary, Queued, Ahead, Flatten;
    if s.pos >= |s.buf| && s.queue != [] { QueueHead(c, s); }
  }

  /** An answered error is the failure of the source, and there is never a second one. */
  lemma AnsweredIsFailure(c: System, actions: seq<Action>)
    requires c.Valid() && ErrorsOfRun(c, actions) != []
    ensures var errors, s := ErrorsOfRun(c, actions), Run(c, actions);
            |errors| == 1 && s.pos <= |s.buf| && IsFailure(c, Sent(s), errors[0])
  {
    hide Inv, Exec, Initial, Replies, ErrorsIn, IsFailure, Sent, LeftOf, Pipeline, Failing;
    RunErrors(c, actions);
  }

  /** A source that breaks between two lines: the error comes, and end of file only behind it. */
  lemma BreakBetweenLines(b: Byte)
    requires b != NEWLINE
    ensures var c := System([[b, NEWLINE]], Some("EIO"), 64);
            IsFailure(c, [b, NEWLINE], Io("EIO"))
  {
    var c := System([[b, NEWLINE]], Some("EIO"), 64);
    var line := [b, NEWLINE];
    FlattenOne(line);
    assert line[..1] == [b];
    TakenIs(line, 1);
    assert line[2..] == [];
    NoLines();
  }
}
