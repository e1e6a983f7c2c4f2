/** The producer task, its channel and `poll_read`, as interleaved steps, and what
    holds in every state that any interleaving reaches. */
module LineStream {
  import opened Options
  import opened LineReader

  type Message = Result<seq<Byte>>

  datatype Poll = Pending | Ready(result: Result<nat>)

  // ---- serving: poll_read ----

  /** One poll: its answer, the bytes it hands over, and the receiver's next state. */
  datatype Served = Served(poll: Poll, out: seq<Byte>, buf: seq<Byte>, pos: nat, queue: seq<Message>)

  function Min(a: nat, b: nat): nat {
    if a <= b then a else b
  }

  function Serve(buf: seq<Byte>, pos: nat, queue: seq<Message>, closed: bool, n: nat): Served {
    if pos < |buf| then
      var k := Min(|buf| - pos, n);
      var done := pos + k >= |buf|;
      Served(Ready(Ok(k)), buf[pos..pos + k], if done then [] else buf, if done then 0 else pos + k, queue)
    else if queue == [] then
      Served(if closed then Ready(Ok(0)) else Pending, [], buf, pos, queue)
    else
      match queue[0]
      case Ok(line) =>
        var k := Min(|line|, n);
        if k < |line| then Served(Ready(Ok(k)), line[..k], line, k, queue[1..])
        else Served(Ready(Ok(k)), line, buf, pos, queue[1..])
      case Err(e) => Served(Ready(Err(e)), [], buf, pos, queue[1..])
  }

  class Channel {
    var queue: seq<Message>
    var closed: bool
  }

  class LineBufferedRead {
    var buf: seq<Byte>
    var pos: nat
    const rx: Channel

    constructor (rx: Channel)
      ensures buf == [] && pos == 0 && this.rx == rx
    {
      buf, pos := [], 0;
      this.rx := rx;
    }

    method PollRead(dest: array<Byte>) returns (poll: Poll)
      modifies this, rx, dest
      ensures var s := Serve(old(buf), old(pos), old(rx.queue), old(rx.closed), dest.Length);
              && poll == s.poll && buf == s.buf && pos == s.pos && rx.queue == s.queue
              && dest[..] == s.out + old(dest[..])[|s.out|..]
      ensures rx.closed == old(rx.closed)
    {
      hide *;
      ServeCases(buf, pos, rx.queue, rx.closed, dest.Length);
      if pos < |buf| {
        poll := ServeBuffered(dest);
      } else if rx.queue == [] {
        assert dest[..] == [] + dest[..][0..];
        poll := if rx.closed then Ready(Ok(0)) else Pending;
      } else {
        var message := rx.queue[0];
        rx.queue := rx.queue[1..];
        match message
        case Ok(line) =>
          poll := ServeLine(line, dest);
        case Err(e) =>
          assert dest[..] == [] + dest[..][0..];
          poll := Ready(Err(e));
      }
    }

    /** Serves remaining bytes from the current line. */
    method ServeBuffered(dest: array<Byte>) returns (poll: Poll)
      requires pos < |buf|
      modifies this, dest
      ensures var n := Min(|old(buf)| - old(pos), dest.Length); var end := old(pos) + n;
              && end <= |old(buf)| && n <= dest.Length && poll == Ready(Ok(n))
              && buf == (if end >= |old(buf)| then [] else old(buf)) && pos == (if end >= |old(buf)| then 0 else end)
              && dest[..] == old(buf)[old(pos)..end] + old(dest[..])[n..]
    {
      var avail := |buf| - pos;
      var n := Min(avail, dest.Length);
      Copy(buf[pos..pos + n], dest);
      pos := pos + n;
      if pos >= |buf| {
        buf := [];
        pos := 0;
      }
      poll := Ready(Ok(n));
    }

    /** Serves the front of a received line and stashes the remainder. */
    method ServeLine(line: seq<Byte>, dest: array<Byte>) returns (poll: Poll)
      modifies this, dest
      ensures var n := Min(|line|, dest.Length);
              && n <= |line| && n <= dest.Length && poll == Ready(Ok(n))
              && buf == (if n < |line| then line else old(buf)) && pos == (if n < |line| then n else old(pos))
              && dest[..] == line[..n] + old(dest[..])[n..]
    {
      var n := Min(|line|, dest.Length);
      Copy(line[..n], dest);
      if n < |line| {
        buf := line;
        pos := n;
      }
      poll := Ready(Ok(n));
    }
  }

  /** The branches of one poll. */
  lemma ServeCases(buf: seq<Byte>, pos: nat, queue: seq<Message>, closed: bool, n: nat)
    ensures var s := Serve(buf, pos, queue, closed, n);
            if pos < |buf| then
              var k := Min(|buf| - pos, n);
              pos + k <= |buf| && k <= n
              && s == Served(Ready(Ok(k)), buf[pos..pos + k], if pos + k >= |buf| then [] else buf,
                             if pos + k >= |buf| then 0 else pos + k, queue)
            else if queue == [] then
              s == Served(if closed then Ready(Ok(0)) else Pending, [], buf, pos, queue)
            else if queue[0].Err? then s == Served(Ready(Err(queue[0].error)), [], buf, pos, queue[1..])
            else
              var line := queue[0].value;
              var k := Min(|line|, n);
              k <= |line| && k <= n
              && s == Served(Ready(Ok(k)), line[..k], if k < |line| then line else buf,
                             if k < |line| then k else pos, queue[1..])
  {
    if queue != [] && queue[0].Ok? {
      assert queue[0].value[..|queue[0].value|] == queue[0].value;
    }
  }

  /** `copy_from_slice` into the front of `dest`. */
  method Copy(from: seq<Byte>, dest: array<Byte>)
    requires |from| <= dest.Length
    modifies dest
    ensures dest[..] == from + old(dest[..])[|from|..]
  {
    forall k | 0 <= k < |from| {
      dest[k] := from[k];
    }
  }

  // ---- the whole system ----

  /** `Stopped` has dropped its sender, which closes the channel. */
  datatype Producer = Reading(line: seq<Byte>) | Sending(message: Message) | Stopped

  datatype System = System(chunks: seq<seq<Byte>>, failure: Option<string>, capacity: nat) {
    ghost predicate Valid() {
      capacity > 0 && forall k :: 0 <= k < |chunks| ==> chunks[k] != []
    }

    ghost function Source(): seq<Byte> {
      Flatten(chunks)
    }
  }

  datatype State = State(unread: seq<seq<Byte>>, producer: Producer, queue: seq<Message>,
                         buf: seq<Byte>, pos: nat, delivered: seq<Byte>, lost: seq<Byte>)

  datatype Action = Fill | Send | PollWith(n: nat)

  function Initial(c: System): State {
    State(c.chunks, Reading([]), [], [], 0, [], [])
  }

  /** One pass of the producer's reading loop over what the source has at hand. */
  function FillStep(c: System, s: State): State {
    if !s.producer.Reading? then s
    else if s.unread == [] then
      if c.failure.Some? then s.(producer := Sending(Err(Io(c.failure.value))), lost := s.producer.line)
      else if s.producer.line == [] then s.(producer := Stopped)
      else s.(producer := Sending(Ok(s.producer.line)))
    else
      var available := s.unread[0];
      var read := s.producer.line + available[..Taken(available)];
      var after := s.(unread := Rechunk(available[Taken(available)..], s.unread[1..]));
      if |read| > MAX_LINE_SIZE then after.(producer := Sending(Err(TooLong(|read|))), lost := read)
      else if NewlineAt(available).Some? then after.(producer := Sending(Ok(read)))
      else after.(producer := Reading(read))
  }

  function Rechunk(left: seq<Byte>, rest: seq<seq<Byte>>): seq<seq<Byte>> {
    if left == [] then rest else [left] + rest
  }

  function SendStep(c: System, s: State): State {
    if s.producer.Sending? && |s.queue| < c.capacity then
      s.(queue := s.queue + [s.producer.message],
         producer := if s.producer.message.Ok? then Reading([]) else Stopped)
    else s
  }

  function PollOf(s: State, n: nat): Served {
    Serve(s.buf, s.pos, s.queue, s.producer.Stopped?, n)
  }

  function PollStep(s: State, n: nat): State {
    var p := PollOf(s, n);
    s.(queue := p.queue, buf := p.buf, pos := p.pos, delivered := s.delivered + p.out)
  }

  /** An action that is not enabled leaves the state as it is. */
  function Do(c: System, s: State, a: Action): State {
    match a
    case Fill => FillStep(c, s)
    case Send => SendStep(c, s)
    case PollWith(n) => PollStep(s, n)
  }

  function Exec(c: System, s: State, actions: seq<Action>): State
    decreases |actions|
  {
    if actions == [] then s else Exec(c, Do(c, s, actions[0]), actions[1..])
  }

  // ---- the invariant ----

  /** Messages on their way: queued, then the one being sent. */
  function Pipeline(s: State): seq<Message> {
    s.queue + if s.producer.Sending? then [s.producer.message] else []
  }

  function Queued(ms: seq<Message>): seq<Byte> {
    if ms == [] then []
    else (if ms[0].Ok? then ms[0].value else []) + Queued(ms[1..])
  }

  /** Bytes not yet made into a message. */
  function Ahead(s: State): seq<Byte> {
    (if s.producer.Reading? then s.producer.line else []) + s.lost + Flatten(s.unread)
  }

  function Unserved(s: State): seq<Byte>
    requires s.pos <= |s.buf|
  {
    s.buf[s.pos..]
  }

  ghost predicate Conserved(c: System, s: State) {
    s.pos <= |s.buf|
    && s.delivered + Unserved(s) + Queued(Pipeline(s)) + Ahead(s) == c.Source()
  }

  ghost predicate AllFailures(ms: seq<Message>) {
    forall k :: 0 <= k < |ms| ==> ms[k].Err?
  }

  /** `line` ends a line of the source when only `ms` and then `ahead` follow it. */
  ghost predicate Ends(line: seq<Byte>, ms: seq<Message>, ahead: seq<Byte>) {
    Terminated(line) || (AllFailures(ms) && ahead == [])
  }

  /** Every message on its way is a whole line, or the failure that ends the stream. */
  ghost predicate WholeLines(ms: seq<Message>, ahead: seq<Byte>) {
    forall k :: 0 <= k < |ms| ==>
      if ms[k].Ok? then ms[k].value != [] && Ends(ms[k].value, ms[k + 1..], ahead) else k == |ms| - 1
  }

  /** `p` stops between two lines of `source`. */
  predicate AtBoundary(p: seq<Byte>, source: seq<Byte>) {
    p == [] || Terminated(p) || p == source
  }

  /** The producer has not failed or finished. */
  predicate Healthy(p: Producer) {
    p.Reading? || (p.Sending? && p.message.Ok?)
  }

  ghost predicate Inv(c: System, s: State) {
    && c.Valid()
    && Conserved(c, s)
    && (forall k :: 0 <= k < |s.unread| ==> s.unread[k] != [])
    && WholeLines(Pipeline(s), Ahead(s))
    && (if s.pos < |s.buf| then Ends(s.buf, Pipeline(s), Ahead(s)) else AtBoundary(s.delivered, c.Source()))
    && (s.producer.Reading? ==> NoNewline(s.producer.line) && |s.producer.line| <= MAX_LINE_SIZE)
    && (Healthy(s.producer) ==> s.lost == [] && forall k :: 0 <= k < |s.queue| ==> s.queue[k].Ok?)
  }

  lemma {:induction false} QueuedConcat(a: seq<Message>, b: seq<Message>)
    ensures Queued(a + b) == Queued(a) + Queued(b)
  {
    if a == [] {
      assert a + b == b;
    } else {
      QueuedConcat(a[1..], b);
      assert (a + b)[1..] == a[1..] + b;
    }
  }

  lemma {:induction false} QueuedFailures(ms: seq<Message>)
    requires AllFailures(ms)
    ensures Queued(ms) == []
  {
    if ms != [] {
      QueuedFailures(ms[1..]);
    }
  }

  lemma InitialInv(c: System)
    requires c.Valid()
    ensures Inv(c, Initial(c))
  {
    var s := Initial(c);
    assert Pipeline(s) == [];
    assert Ahead(s) == [] + [] + Flatten(c.chunks) == c.Source();
  }

  lemma SendInv(c: System, s: State)
    requires Inv(c, s)
    ensures Inv(c, SendStep(c, s))
  {
    hide Flatten, Queued, WholeLines, Ends, Terminated;
    var t := SendStep(c, s);
    if t != s {
      assert Pipeline(t) == Pipeline(s) && Ahead(t) == Ahead(s);
    }
  }

  // ---- the reading loop keeps it ----

  lemma PushFailure(ms: seq<Message>, ahead: seq<Byte>, e: ReadError)
    requires WholeLines(ms, ahead) && forall k :: 0 <= k < |ms| ==> ms[k].Ok?
    ensures WholeLines(ms + [Err(e)], ahead) && Queued(ms + [Err(e)]) == Queued(ms)
    ensures forall line :: Ends(line, ms, ahead) ==> Ends(line, ms + [Err(e)], ahead)
  {
    hide Terminated, Queued;
    var all := ms + [Err(e)];
    forall k | 0 <= k < |ms| ensures Ends(all[k].value, all[k + 1..], ahead) {
      assert all[k] == ms[k] && all[k + 1..] == ms[k + 1..] + [Err(e)];
    }
    QueuedConcat(ms, [Err(e)]);
    QueuedFailures([Err(e)]);
  }

  lemma PushLine(ms: seq<Message>, line: seq<Byte>, ahead: seq<Byte>)
    requires WholeLines(ms, line + ahead) && line != [] && (Terminated(line) || ahead == [])
    requires forall k :: 0 <= k < |ms| ==> ms[k].Ok?
    ensures WholeLines(ms + [Ok(line)], ahead) && Queued(ms + [Ok(line)]) == Queued(ms) + line
    ensures forall l :: Ends(l, ms, line + ahead) ==> Ends(l, ms + [Ok(line)], ahead)
  {
    hide Terminated, Queued;
    var m: Message := Ok(line);
    var all := ms + [m];
    assert all[|ms| + 1..] == [];
    forall k | 0 <= k < |ms| ensures Ends(all[k].value, all[k + 1..], ahead) {
      assert all[k] == ms[k];
      assert Ends(ms[k].value, ms[k + 1..], line + ahead);
    }
    QueuedConcat(ms, [m]);
    QueuedOne(line);
  }

  lemma QueuedOne(line: seq<Byte>)
    ensures Queued([Ok(line)]) == line
  {
    var ms: seq<Message> := [Ok(line)];
    assert ms[1..] == [] && Queued(ms[1..]) == [];
  }

  lemma RechunkFlat(left: seq<Byte>, rest: seq<seq<Byte>>)
    requires forall k :: 0 <= k < |rest| ==> rest[k] != []
    ensures Flatten(Rechunk(left, rest)) == left + Flatten(rest)
    ensures forall k :: 0 <= k < |Rechunk(left, rest)| ==> Rechunk(left, rest)[k] != []
  {
    assert ([left] + rest)[1..] == rest;
  }

  /** Where a pass of the loop takes the bytes it read. */
  lemma BytesMove(line: seq<Byte>, available: seq<Byte>, rest: seq<seq<Byte>>)
    requires NoNewline(line) && available != [] && forall k :: 0 <= k < |rest| ==> rest[k] != []
    ensures var read, unread := line + available[..Taken(available)], Rechunk(available[Taken(available)..], rest);
            && read != [] && line + [] + Flatten([available] + rest) == read + Flatten(unread)
            && (forall k :: 0 <= k < |unread| ==> unread[k] != [])
            && (if NewlineAt(available).Some? then Terminated(read) else NoNewline(read))
  {
    hide *;
    var n := Taken(available);
    RechunkFlat(available[n..], rest);
    RechunkFlat(available, rest);
    ReadStep(line, available, Flatten(rest));
    ChunkFirst(available, rest);
    var flat := Flatten(rest);
    assert available == available[..n] + available[n..];
    assert line + [] + (available + flat) == line + available[..n] + (available[n..] + flat);
  }

  lemma ChunkFirst(available: seq<Byte>, rest: seq<seq<Byte>>)
    requires available != []
    ensures Rechunk(available, rest) == [available] + rest
  {
  }

  lemma FillMoves(c: System, s: State)
    requires Inv(c, s) && s.producer.Reading? && s.unread != []
    ensures var available := s.unread[0];
            var read := s.producer.line + available[..Taken(available)];
            var t := FillStep(c, s);
            && read != [] && Ahead(s) == read + Flatten(t.unread)
            && (forall k :: 0 <= k < |t.unread| ==> t.unread[k] != [])
            && (if NewlineAt(available).Some? then Terminated(read) else NoNewline(read))
  {
    hide Flatten, Queued, WholeLines, Ends, Terminated, NoNewline, NewlineAt, Taken, AtBoundary, Rechunk, Conserved;
    BytesMove(s.producer.line, s.unread[0], s.unread[1..]);
    assert s.unread == [s.unread[0]] + s.unread[1..];
  }

  lemma FillInv(c: System, s: State)
    requires Inv(c, s)
    ensures Inv(c, FillStep(c, s))
  {
    hide Flatten, Queued, WholeLines, Ends, Terminated, NoNewline, NewlineAt, Taken, AtBoundary, Rechunk;
    var t := FillStep(c, s);
    if s.producer.Reading? {
      assert Pipeline(s) == s.queue;
      var line := s.producer.line;
      if s.unread == [] {
        FlattenNone();
        assert Ahead(s) == line;
        if t.producer.Sending? && t.producer.message.Err? {
          PushFailure(s.queue, line, t.producer.message.error);
          assert Ahead(t) == line;
        } else if t.producer.Sending? {
          assert line + [] == line;
          PushLine(s.queue, line, []);
          assert Ahead(t) == [];
        } else {
          assert Pipeline(t) == s.queue && Ahead(t) == line;
        }
      } else {
        FillMoves(c, s);
        var read := line + s.unread[0][..Taken(s.unread[0])];
        if t.producer.Reading? {
          assert Pipeline(t) == s.queue && Ahead(t) == read + Flatten(t.unread);
        } else if t.producer.message.Err? {
          PushFailure(s.queue, Ahead(s), t.producer.message.error);
          assert Ahead(t) == read + Flatten(t.unread);
        } else {
          PushLine(s.queue, read, Flatten(t.unread));
          assert Ahead(t) == Flatten(t.unread);
        }
      }
    }
  }

  lemma FlattenNone()
    ensures Flatten([]) == []
  {
  }

  // ---- polling keeps it ----

  /** Handing over the rest of a line brings the delivered bytes to a boundary. */
  lemma LineServed(delivered: seq<Byte>, line: seq<Byte>, from: nat, ms: seq<Message>, ahead: seq<Byte>,
                   source: seq<Byte>)
    requires from < |line| && Ends(line, ms, ahead)
    requires delivered + line[from..] + Queued(ms) + ahead == source
    ensures AtBoundary(delivered + line[from..], source)
  {
    if Terminated(line) {
      var p := delivered + line[from..];
      assert p[|p| - 1] == line[|line| - 1];
    } else {
      QueuedFailures(ms);
    }
  }

  lemma PopFirst(m: Message, ms: seq<Message>, ahead: seq<Byte>)
    requires WholeLines([m] + ms, ahead)
    ensures WholeLines(ms, ahead)
    ensures Queued([m] + ms) == (if m.Ok? then m.value else []) + Queued(ms)
    ensures m.Ok? ==> m.value != [] && Ends(m.value, ms, ahead)
    ensures m.Err? ==> ms == []
  {
    hide Ends;
    var all := [m] + ms;
    assert all[1..] == ms;
    forall k | 0 <= k < |ms|
      ensures if ms[k].Ok? then ms[k].value != [] && Ends(ms[k].value, ms[k + 1..], ahead) else k == |ms| - 1
    {
      assert all[k + 1] == ms[k] && all[k + 2..] == ms[k + 1..];
    }
    assert all[0] == m;
  }

  lemma PollInv(c: System, s: State, n: nat)
    requires Inv(c, s)
    ensures Inv(c, PollStep(s, n))
  {
    hide Flatten, Queued, WholeLines, Ends, Terminated, NoNewline, AtBoundary;
    if s.pos < |s.buf| {
      RestInv(c, s, n);
    } else if s.queue == [] {
      assert s.delivered + [] == s.delivered;
    } else {
      PopInv(c, s, n);
    }
  }

  lemma RestInv(c: System, s: State, n: nat)
    requires Inv(c, s) && s.pos < |s.buf|
    ensures Inv(c, PollStep(s, n))
  {
    hide Flatten, Queued, WholeLines, Ends, Terminated, NoNewline, AtBoundary;
    var t := PollStep(s, n);
    assert Ahead(t) == Ahead(s) && Pipeline(t) == Pipeline(s);
    hide Ahead, Pipeline, Healthy;
    var k := Min(|s.buf| - s.pos, n);
    RestMoves(s.delivered, s.buf, s.pos, k, Queued(Pipeline(s)), Ahead(s));
    if s.pos + k >= |s.buf| {
      LineServed(s.delivered, s.buf, s.pos, Pipeline(s), Ahead(s), c.Source());
    }
  }

  lemma RestMoves(delivered: seq<Byte>, buf: seq<Byte>, pos: nat, k: nat, queued: seq<Byte>, ahead: seq<Byte>)
    requires pos + k <= |buf|
    ensures delivered + buf[pos..] + queued + ahead == delivered + buf[pos..pos + k] + buf[pos + k..] + queued + ahead
    ensures pos + k == |buf| ==> buf[pos..pos + k] == buf[pos..] && buf[pos + k..] == []
  {
    assert buf[pos..] == buf[pos..pos + k] + buf[pos + k..];
  }

  lemma PopInv(c: System, s: State, n: nat)
    requires Inv(c, s) && s.pos >= |s.buf| && s.queue != []
    ensures Inv(c, PollStep(s, n))
  {
    hide Flatten, Queued, WholeLines, Ends, Terminated, NoNewline, AtBoundary;
    var t := PollStep(s, n);
    var m := s.queue[0];
    assert Ahead(t) == Ahead(s);
    assert Pipeline(s) == [m] + Pipeline(t);
    PopFirst(m, Pipeline(t), Ahead(s));
    hide Ahead, Pipeline, Healthy;
    if m.Ok? {
      var k := Min(|m.value|, n);
      Handover(s.delivered, m.value, k, Queued(Pipeline(t)), Ahead(s));
      if k == |m.value| {
        LineServed(s.delivered, m.value, 0, Pipeline(t), Ahead(s), c.Source());
      }
    } else {
      assert s.delivered + [] == s.delivered;
    }
  }

  lemma Handover(delivered: seq<Byte>, line: seq<Byte>, k: nat, queued: seq<Byte>, ahead: seq<Byte>)
    requires k <= |line|
    ensures delivered + [] + (line + queued) + ahead == delivered + line[..k] + line[k..] + queued + ahead
    ensures delivered + line[0..] + queued + ahead == delivered + [] + (line + queued) + ahead
    ensures k == |line| ==> line[..k] == line[0..] == line
  {
    assert line == line[..k] + line[k..];
  }
}
