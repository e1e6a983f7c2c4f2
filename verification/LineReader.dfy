/** The cancel-safe line reader: `read_line_capped` over a chunked source, the
    reader that serves lines in slices, and what both rely on. */
module LineReader {
  import opened Options
  import Utf8

  type Byte = Utf8.Byte

  const NEWLINE: Byte := 10
  const MAX_LINE_SIZE: nat := 64 * 1024 * 1024

  datatype ReadError = TooLong(read: nat) | Io(code: string)

  datatype Result<+T> = Ok(value: T) | Err(error: ReadError)

  predicate NoNewline(s: seq<Byte>) {
    forall k :: 0 <= k < |s| ==> s[k] != NEWLINE
  }

  /** The position of the first newline. */
  function NewlineAt(s: seq<Byte>): (r: Option<nat>)
    ensures r.Some? ==> r.value < |s| && s[r.value] == NEWLINE && NoNewline(s[..r.value])
    ensures r.None? <==> NoNewline(s)
  {
    if s == [] then None
    else if s[0] == NEWLINE then Some(0)
    else
      var r := NewlineAt(s[1..]);
      assert forall k :: 1 <= k < |s| ==> s[k] == s[1..][k - 1];
      if r.Some? then
        assert s[..r.value + 1] == [s[0]] + s[1..][..r.value];
        Some(r.value + 1)
      else None
  }

  /** How many of the available bytes belong to the line being read. */
  function Taken(available: seq<Byte>): (n: nat)
    ensures n <= |available|
    ensures available != [] ==> n > 0
  {
    var p := NewlineAt(available);
    if p.Some? then p.value + 1 else |available|
  }

  /** Everything through the first newline, or everything. */
  function FirstLine(s: seq<Byte>): seq<Byte> {
    s[..Taken(s)]
  }

  predicate Terminated(line: seq<Byte>) {
    line != [] && line[|line| - 1] == NEWLINE
  }

  lemma TakenIs(s: seq<Byte>, n: nat)
    requires n < |s| && s[n] == NEWLINE && NoNewline(s[..n])
    ensures Taken(s) == n + 1
  {
    var p := NewlineAt(s).value;
    assert forall k :: 0 <= k < n ==> s[k] == s[..n][k];
    assert forall k :: 0 <= k < p ==> s[k] == s[..p][k];
  }

  /** Where the line that begins with `line` ends, seen from the next chunk. */
  lemma LineThrough(line: seq<Byte>, available: seq<Byte>, rest: seq<Byte>)
    requires NoNewline(line)
    ensures NewlineAt(available).Some? ==>
              FirstLine(line + available + rest) == line + available[..Taken(available)]
              && Terminated(line + available[..Taken(available)])
    ensures NewlineAt(available).None? ==> NoNewline(line + available)
  {
    var p := NewlineAt(available);
    if p.Some? {
      var s, n := line + available + rest, |line| + p.value;
      assert s[n] == available[p.value];
      assert s[..n] == line + available[..p.value];
      TakenIs(s, n);
      assert s[..n + 1] == line + available[..p.value + 1];
      assert (line + available[..p.value + 1])[n] == NEWLINE;
    }
  }

  /** The first line reaches beyond a newline-free start. */
  lemma LineBeyond(line: seq<Byte>, rest: seq<Byte>)
    requires NoNewline(line)
    ensures |FirstLine(line + rest)| >= |line| && FirstLine(line + rest)[..|line|] == line
    ensures rest == [] ==> FirstLine(line + rest) == line && !Terminated(line)
  {
    var p := NewlineAt(line + rest);
    assert forall k :: 0 <= k < |line| ==> (line + rest)[k] == line[k];
    if rest == [] { assert line + rest == line; }
  }

  function Flatten(chunks: seq<seq<Byte>>): seq<Byte> {
    if chunks == [] then [] else chunks[0] + Flatten(chunks[1..])
  }

  /** A byte source that hands out its bytes in chunks of any size, then ends or breaks. */
  class Reader {
    var chunks: seq<seq<Byte>>
    const failure: Option<string>

    ghost predicate Valid()
      reads this
    {
      forall k :: 0 <= k < |chunks| ==> chunks[k] != []
    }

    ghost function Rest(): seq<Byte>
      reads this
    {
      Flatten(chunks)
    }

    constructor (chunks: seq<seq<Byte>>, failure: Option<string>)
      requires forall k :: 0 <= k < |chunks| ==> chunks[k] != []
      ensures Valid() && Rest() == Flatten(chunks) && this.failure == failure
    {
      this.chunks, this.failure := chunks, failure;
    }

    /** The bytes at hand; none at the end of the source. */
    method FillBuf() returns (r: Result<seq<Byte>>)
      requires Valid()
      ensures r.Ok? ==> (r.value == [] <==> Rest() == []) && (chunks == [] <==> r.value == [])
      ensures r.Ok? && r.value != [] ==> r.value == chunks[0] && Rest() == r.value + Flatten(chunks[1..])
      ensures r.Err? ==> Rest() == [] && failure.Some? && r.error == Io(failure.value)
      ensures Rest() == [] ==> (r.Err? <==> failure.Some?)
    {
      if chunks == [] {
        return if failure.Some? then Err(Io(failure.value)) else Ok([]);
      }
      r := Ok(chunks[0]);
    }

    method Consume(n: nat)
      requires Valid() && chunks != [] && n <= |chunks[0]|
      modifies this
      ensures Valid() && Rest() == old(Rest())[n..]
    {
      ghost var tail := Flatten(chunks[1..]);
      assert (chunks[0] + tail)[n..] == chunks[0][n..] + tail;
      if n == |chunks[0]| {
        assert chunks[0][n..] + tail == tail;
        chunks := chunks[1..];
      } else {
        assert ([chunks[0][n..]] + chunks[1..])[1..] == chunks[1..];
        chunks := [chunks[0][n..]] + chunks[1..];
      }
    }
  }

  /** Reads one line: however the source is cut into chunks, exactly its first line, unless
      that line is too long or the source breaks inside it. */
  method ReadLineCapped(reader: Reader) returns (buf: seq<Byte>, r: Result<nat>)
    requires reader.Valid()
    modifies reader
    ensures reader.Valid()
    ensures var line := FirstLine(old(reader.Rest()));
            && buf <= line && reader.Rest() == old(reader.Rest())[|buf|..]
            && (r.Ok? ==> buf == line && r.value == |line|)
            && (r.Err? && r.error.TooLong? ==> MAX_LINE_SIZE < |buf| == r.error.read)
            && (r.Err? && r.error.Io? ==> buf == line && reader.failure == Some(r.error.code))
    ensures var line := FirstLine(old(reader.Rest()));
            && (r.Err? && r.error.TooLong? <==> |line| > MAX_LINE_SIZE)
            && (r.Err? && r.error.Io? <==> |line| <= MAX_LINE_SIZE && !Terminated(line) && reader.failure.Some?)
  {
    hide *;
    buf := [];
    ghost var source := reader.Rest();
    ghost var line := FirstLine(source);
    var done := false;
    NothingRead(source);
    while !done
      invariant reader.Valid()
      invariant source == buf + reader.Rest()
      invariant |buf| <= MAX_LINE_SIZE && buf <= line
      invariant done ==> buf == line && Terminated(line)
      invariant !done ==> NoNewline(buf)
      decreases |reader.Rest()|, !done
    {
      var filled := reader.FillBuf();
      if filled.Err? || filled.value == [] {
        EndReached(buf, source);
        return buf, if filled.Err? then Err(filled.error) else Ok(|buf|);
      }
      var available := filled.value;
      var consumed := Taken(available);
      ReadStep(buf, available, Flatten(reader.chunks[1..]));
      assert source == buf + (available + Flatten(reader.chunks[1..]));
      done := NewlineAt(available).Some?;
      buf := buf + available[..consumed];
      reader.Consume(consumed);
      if |buf| > MAX_LINE_SIZE {
        return buf, Err(TooLong(|buf|));
      }
    }
    return buf, Ok(|buf|);
  }

  lemma NothingRead(source: seq<Byte>)
    ensures NoNewline([]) && [] <= FirstLine(source) && source == [] + source && 0 <= MAX_LINE_SIZE
  {
  }

  lemma EndReached(line: seq<Byte>, source: seq<Byte>)
    requires NoNewline(line) && source == line + []
    ensures FirstLine(source) == line && !Terminated(line) && source[|line|..] == []
  {
    LineBeyond(line, []);
  }

  /** One pass of the loop: what is read grows into the first line. */
  lemma ReadStep(line: seq<Byte>, available: seq<Byte>, rest: seq<Byte>)
    requires NoNewline(line)
    ensures var read, source := line + available[..Taken(available)], line + (available + rest);
            && source == read + (available + rest)[Taken(available)..]
            && read <= FirstLine(source)
            && (if NewlineAt(available).Some? then read == FirstLine(source) && Terminated(read) else NoNewline(read))
  {
    hide *;
    var n := Taken(available);
    var read, source := line + available[..n], line + (available + rest);
    Regroup(line, available, rest, n);
    LineThrough(line, available, rest);
    if NewlineAt(available).None? {
      AllTaken(available);
      LineBeyond(read, rest);
    }
  }

  lemma AllTaken(available: seq<Byte>)
    ensures NewlineAt(available).None? ==> available[..Taken(available)] == available
  {
  }

  lemma Regroup(a: seq<Byte>, b: seq<Byte>, c: seq<Byte>, n: nat)
    requires n <= |b|
    ensures a + (b + c) == a + b + c == a + b[..n] + (b + c)[n..]
  {
    assert b + c == b[..n] + (b + c)[n..];
  }
}
