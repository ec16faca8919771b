/** Connections as the gateway sees them: a byte stream to read, a byte sink to write. */
module Streams {
  import opened Bytes

  datatype ReadError = Eof | UnexpectedEof

  /** What io.ReadFull of n bytes yields on a stream holding exactly `input`. */
  function ReadFullOf(input: Str, n: nat): (r: (Result<Str, ReadError>, Str))
    ensures r.0.Ok? ==> input == r.0.value + r.1 && |r.0.value| == n
    ensures r.0.Err? <==> |input| < n
  {
    if n <= |input| then (Ok(input[..n]), input[n..])
    else (Err(if input == [] then Eof else UnexpectedEof), [])
  }

  class Stream {
    var rest: Str

    constructor (bytes: Str)
      ensures rest == bytes
    {
      rest := bytes;
    }

    method ReadFull(n: nat) returns (r: Result<Str, ReadError>)
      modifies this
      ensures (r, rest) == ReadFullOf(old(rest), n)
    {
      if n <= |rest| {
        r := Ok(rest[..n]);
        rest := rest[n..];
      } else {
        r := Err(if rest == [] then Eof else UnexpectedEof);
        rest := [];
      }
    }

    /** io.ReadFull into the first n cells of a; a short stream fills a prefix of them. */
    method ReadInto(a: array<byte>, n: nat) returns (r: Option<ReadError>)
      requires n <= a.Length
      modifies this, a
      ensures var k := if n <= |old(rest)| then n else |old(rest)|;
        && a[..k] == old(rest)[..k] && a[k..] == old(a[k..])
        && rest == old(rest)[k..]
      ensures r == if n <= |old(rest)| then None else Some(if old(rest) == [] then Eof else UnexpectedEof)
    {
      var k := if n <= |rest| then n else |rest|;
      for i := 0 to k
        invariant rest == old(rest)
        invariant a[..i] == rest[..i]
        invariant a[i..] == old(a[i..])
      {
        a[i] := rest[i];
        assert a[i + 1..] == old(a[i..])[1..];
      }
      r := if n <= |rest| then None else Some(if rest == [] then Eof else UnexpectedEof);
      rest := rest[k..];
    }
  }

  /** What a peer that takes `capacity` bytes in all has received after one more write. */
  function Appended(written: Str, bytes: Str, capacity: nat): (r: Str)
    requires |written| <= capacity
    ensures written <= r && |r| <= capacity
  {
    if |written| + |bytes| <= capacity then written + bytes else written + bytes[..capacity - |written|]
  }

  /** A writer whose peer accepts `capacity` bytes in all and then fails. */
  class Sink {
    var written: Str
    const capacity: nat

    ghost predicate Valid()
      reads this
    {
      |written| <= capacity
    }

    constructor (capacity: nat)
      ensures Valid() && written == [] && this.capacity == capacity
    {
      this.capacity := capacity;
      written := [];
    }

    method Write(bytes: Str) returns (ok: bool)
      requires Valid()
      modifies this
      ensures Valid()
      ensures ok <==> |old(written)| + |bytes| <= capacity
      ensures written == old(written) + if ok then bytes else bytes[..capacity - |old(written)|]
      ensures written == Appended(old(written), bytes, capacity)
    {
      ok := |written| + |bytes| <= capacity;
      written := written + if ok then bytes else bytes[..capacity - |written|];
    }
  }
}
