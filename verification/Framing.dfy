/** Typed backend messages: a type byte, a length word and a body, read without looking ahead. */
module Framing {
  import opened Bytes
  import opened Streams

  const MAX_MESSAGE_LENGTH := 0x10_0000

  datatype Message = Message(kind: byte, body: Str)

  datatype FrameError =
    | HeaderIo(cause: ReadError)
    | LengthTooSmall(length: nat)
    | LengthTooLarge(length: nat)
    | FrameBodyIo(cause: ReadError)

  predicate Encodable(m: Message) { |m.body| + 4 <= MAX_MESSAGE_LENGTH }

  function EncodeMessage(m: Message): (b: Str)
    requires Encodable(m)
    ensures |b| == 5 + |m.body|
  {
    [m.kind] + BE32(|m.body| + 4) + m.body
  }

  /** The outcome of framing one message off `input`, and the bytes left unread. */
  function NextMessage(input: Str): (r: (Result<Message, FrameError>, Str))
    ensures r.0.Ok? ==> Encodable(r.0.value) && |r.1| < |input|
  {
    var (header, afterHeader) := ReadFullOf(input, 5);
    if header.Err? then (Err(HeaderIo(header.error)), afterHeader)
    else
      var length := Uint32(header.value[1..]);
      if length < 4 then (Err(LengthTooSmall(length)), afterHeader)
      else if length > MAX_MESSAGE_LENGTH then (Err(LengthTooLarge(length)), afterHeader)
      else
        var (body, rest) := ReadFullOf(afterHeader, length - 4);
        if body.Err? then (Err(FrameBodyIo(body.error)), rest)
        else (Ok(Message(header.value[0], body.value)), rest)
  }

  /** What was framed, put back on the wire, is exactly what was consumed. */
  lemma NextConsumesItsEncoding(input: Str)
    requires NextMessage(input).0.Ok?
    ensures input == EncodeMessage(NextMessage(input).0.value) + NextMessage(input).1
  {
    var (header, afterHeader) := ReadFullOf(input, 5);
    var (body, rest) := ReadFullOf(afterHeader, Uint32(header.value[1..]) - 4);
    BytesRoundTrip(header.value[1..]);
    assert header.value == [header.value[0]] + header.value[1..];
    assert input == header.value + (body.value + rest);
  }

  lemma NextOfEncoding(m: Message, tail: Str)
    requires Encodable(m)
    ensures NextMessage(EncodeMessage(m) + tail) == (Ok(m), tail)
  {
    WordRoundTrip(|m.body| + 4);
    NextOfParts(m, BE32(|m.body| + 4), tail);
  }

  lemma NextOfParts(m: Message, length: Str, tail: Str)
    requires Encodable(m) && |length| == 4 && Uint32(length) == |m.body| + 4
    ensures NextMessage([m.kind] + length + m.body + tail) == (Ok(m), tail)
  {
    var header := [m.kind] + length;
    var input := header + m.body + tail;
    assert input[..5] == header && header[1..] == length;
    assert input[5..] == m.body + tail;
    assert (m.body + tail)[..|m.body|] == m.body && (m.body + tail)[|m.body|..] == tail;
  }

  // ---- Runs of messages ----

  predicate AllEncodable(ms: seq<Message>) {
    forall i :: 0 <= i < |ms| ==> Encodable(ms[i])
  }

  function EncodeAll(ms: seq<Message>): Str
    requires AllEncodable(ms)
  {
    if ms == [] then [] else EncodeMessage(ms[0]) + EncodeAll(ms[1..])
  }

  /** n consecutive calls to Next, stopping at the first failure. */
  function NextN(input: Str, n: nat): (Result<seq<Message>, FrameError>, Str)
    decreases n
  {
    if n == 0 then (Ok([]), input)
    else
      var (m, rest) := NextMessage(input);
      if m.Err? then (Err(m.error), rest)
      else
        var (more, left) := NextN(rest, n - 1);
        if more.Err? then (more, left) else (Ok([m.value] + more.value), left)
  }

  /** Framing never reads ahead: exactly the messages come out and exactly the tail stays. */
  lemma {:induction false} FramingIsExact(ms: seq<Message>, tail: Str)
    requires AllEncodable(ms)
    ensures NextN(EncodeAll(ms) + tail, |ms|) == (Ok(ms), tail)
  {
    if ms == [] {
      assert EncodeAll(ms) + tail == tail;
    } else {
      assert EncodeAll(ms) + tail == EncodeMessage(ms[0]) + (EncodeAll(ms[1..]) + tail);
      NextOfEncoding(ms[0], EncodeAll(ms[1..]) + tail);
      FramingIsExact(ms[1..], tail);
      assert ms == [ms[0]] + ms[1..];
    }
  }

  // ---- The reader and its reused buffer ----

  function Max(a: nat, b: nat): nat { if a < b then b else a }

  /** Frames a stream. A message body lives in `buf` only until the following Next. */
  class MessageReader {
    const input: Stream
    var buf: array<byte> // backing store; its length is the slice's capacity
    var len: nat         // length of the current body

    ghost predicate Valid()
      reads this
    {
      len <= buf.Length <= MAX_MESSAGE_LENGTH - 4
    }

    constructor (input: Stream)
      ensures Valid() && fresh(buf) && this.input == input && buf.Length == 0
    {
      this.input := input;
      buf := new byte[0];
      len := 0;
    }

    /** The message a successful Next leaves behind. */
    function Current(kind: byte): Message
      requires Valid()
      reads this, buf
    {
      Message(kind, buf[..len])
    }

    method Next() returns (r: Result<byte, FrameError>)
      requires Valid()
      modifies this, input, buf
      ensures Valid()
      ensures buf == old(buf) || fresh(buf)
      ensures input.rest == NextMessage(old(input.rest)).1
      ensures r.Ok? ==> NextMessage(old(input.rest)).0 == Ok(Current(r.value))
      ensures r.Ok? ==> buf.Length == Max(old(buf.Length), len)
      ensures r.Err? ==> NextMessage(old(input.rest)).0 == Err(r.error)
    {
      var header := input.ReadFull(5);
      if header.Err? { return Err(HeaderIo(header.error)); }
      var length := Uint32(header.value[1..]);
      if length < 4 { return Err(LengthTooSmall(length)); }
      if length > MAX_MESSAGE_LENGTH { return Err(LengthTooLarge(length)); }
      var bodyLen := length - 4;
      if buf.Length < bodyLen {
        buf := new byte[bodyLen];
      }
      len := bodyLen;
      var err := input.ReadInto(buf, bodyLen);
      if err.Some? { return Err(FrameBodyIo(err.value)); }
      return Ok(header.value[0]);
    }

    /** Message.Encode: a copy that does not alias the reader's buffer. */
    method EncodeCurrent(kind: byte) returns (out: array<byte>)
      requires Valid()
      ensures fresh(out)
      ensures out[..] == EncodeMessage(Current(kind))
    {
      var bytes := [kind] + BE32(len + 4) + buf[..len];
      out := new byte[|bytes|](i requires 0 <= i < |bytes| => bytes[i]);
      assert out[..] == bytes;
    }

    /** The copy taken of one message survives the read that overwrites the buffer. */
    method EncodeThenNext(kind: byte) returns (out: array<byte>, r: Result<byte, FrameError>)
      requires Valid()
      modifies this, input, buf
      ensures Valid() && fresh(out)
      ensures out[..] == old(EncodeMessage(Current(kind)))
      ensures input.rest == NextMessage(old(input.rest)).1
      ensures r.Ok? ==> NextMessage(old(input.rest)).0 == Ok(Current(r.value))
    {
      out := EncodeCurrent(kind);
      r := Next();
    }

    /** n calls to Next: the messages framed, one buffer as large as the largest body. */
    method NextMany(n: nat) returns (r: Result<seq<Message>, FrameError>)
      requires Valid()
      modifies this, input, buf
      ensures Valid()
      ensures (r, input.rest) == NextN(old(input.rest), n)
      ensures r.Ok? ==> buf.Length == Capacity(old(buf.Length), r.value)
      decreases n
    {
      if n == 0 { return Ok([]); }
      var kind := Next();
      if kind.Err? { return Err(kind.error); }
      var m := Current(kind.value);
      var more := NextMany(n - 1);
      if more.Err? { return more; }
      return Ok([m] + more.value);
    }
  }

  /** The buffer capacity after framing ms: the largest body allocated so far. */
  function Capacity(start: nat, ms: seq<Message>): (c: nat)
    ensures c >= start
    ensures forall i :: 0 <= i < |ms| ==> c >= |ms[i].body|
    ensures c == start || exists i :: 0 <= i < |ms| && c == |ms[i].body|
    decreases |ms|
  {
    if ms == [] then start
    else
      var next := Max(start, |ms[0].body|);
      var c := Capacity(next, ms[1..]);
      assert c != next ==> exists i :: 0 <= i < |ms[1..]| && c == |ms[1..][i].body|;
      assert (exists i :: 0 <= i < |ms[1..]| && c == |ms[1..][i].body|) ==>
        exists i :: 0 <= i < |ms| && c == |ms[i].body| by {
          if i :| 0 <= i < |ms[1..]| && c == |ms[1..][i].body| { assert c == |ms[i + 1].body|; }
        }
      c
  }
}
