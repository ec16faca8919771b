/** The startup-phase codec: startup, negotiation and cancel packets, and BackendKeyData. */
module Protocol {
  import opened Bytes
  import opened Streams

  const CANCEL_REQUEST_CODE: int32 := 80877102
  const SSL_REQUEST_CODE: int32 := 80877103
  const GSSENC_REQUEST_CODE: int32 := 80877104
  const MSG_BACKEND_KEY_DATA: byte := 75 // 'K'
  const MSG_READY_FOR_QUERY: byte := 90  // 'Z'
  const MAX_STARTUP_PACKET_LENGTH := 10000
  const MIN_STARTUP_PACKET_LENGTH := 8

  datatype Parameter = Parameter(key: Str, value: Str)
  datatype CancelKey = CancelKey(pid: int32, secret: int32)
  const NO_KEY := CancelKey(0, 0)

  /** The value of a decoded packet. */
  datatype Packet = Packet(code: int32, parameters: seq<Parameter>, cancel: CancelKey) {
    predicate IsSSLRequest() { code == SSL_REQUEST_CODE }
    predicate IsGSSEncRequest() { code == GSSENC_REQUEST_CODE }
    predicate IsCancelRequest() { code == CANCEL_REQUEST_CODE }
    // Code >> 16 on a signed word, which is a floor division.
    function MajorVersion(): int { Major(code) }
  }

  function Major(code: int): int { code / 0x1_0000 }

  datatype PacketError =
    | Io(cause: ReadError)
    | BodyIo(cause: ReadError)
    | TooShort(length: nat)
    | TooLarge(length: nat)
    | NegotiationTrailer(extra: nat)
    | BadCancelLength(length: nat)
    | UnsupportedVersion(major: int)
    | UnterminatedName
    | UnterminatedValue(name: Str)

  // ---- Parameter lists ----

  /** bytes.IndexByte(b, 0). */
  function IndexNul(b: Str): (r: Option<nat>)
    ensures r.Some? ==> r.value < |b| && b[r.value] == 0 && NulFree(b[..r.value])
    ensures r.None? ==> NulFree(b)
  {
    if b == [] then None
    else if b[0] == 0 then Some(0)
    else match IndexNul(b[1..])
      case None => None
      case Some(i) => assert b[..i + 1] == [b[0]] + b[1..][..i]; Some(i + 1)
  }

  function ReadCString(b: Str): (r: Option<(Str, Str)>)
    ensures r.Some? ==> b == r.value.0 + [0] + r.value.1 && NulFree(r.value.0)
    ensures r.None? ==> NulFree(b)
  {
    match IndexNul(b)
    case None => None
    case Some(end) => assert b == b[..end] + [b[end]] + b[end + 1..]; Some((b[..end], b[end + 1..]))
  }

  function ParseParameters(payload: Str): Result<seq<Parameter>, PacketError>
    decreases |payload|
  {
    if payload == [] || payload[0] == 0 then Ok([])
    else match ReadCString(payload)
      case None => Err(UnterminatedName)
      case Some((key, rest)) =>
        match ReadCString(rest)
        case None => Err(UnterminatedValue(key))
        case Some((value, rest')) =>
          match ParseParameters(rest')
          case Err(e) => Err(e)
          case Ok(more) => Ok([Parameter(key, value)] + more)
  }

  /** The wire grammar of a parameter list, without its terminator. */
  function ParameterBytes(ps: seq<Parameter>): Str {
    if ps == [] then []
    else ps[0].key + [0] + (ps[0].value + [0] + ParameterBytes(ps[1..]))
  }

  predicate WellFormed(p: Parameter) { p.key != [] && NulFree(p.key) && NulFree(p.value) }

  predicate AllWellFormed(ps: seq<Parameter>) {
    forall i :: 0 <= i < |ps| ==> WellFormed(ps[i])
  }

  /** A list may stop at the end of the payload or at an empty key; what follows is padding. */
  predicate EndsList(tail: Str) { tail == [] || tail[0] == 0 }

  lemma {:induction false} IndexNulAt(s: Str, rest: Str)
    requires NulFree(s)
    ensures IndexNul(s + [0] + rest) == Some(|s|)
  {
    var b := s + [0] + rest;
    if s != [] {
      assert b[0] == s[0] != 0;
      assert b[1..] == s[1..] + [0] + rest;
      IndexNulAt(s[1..], rest);
    }
  }

  lemma CStringAfter(s: Str, rest: Str)
    requires NulFree(s)
    ensures ReadCString(s + [0] + rest) == Some((s, rest))
  {
    IndexNulAt(s, rest);
    var b := s + [0] + rest;
    assert b[..|s|] == s && b[|s| + 1..] == rest;
  }

  /** Everything the parser accepts is a well-formed list followed by tolerated padding. */
  lemma {:induction false} ParseSound(payload: Str) returns (padding: Str)
    requires ParseParameters(payload).Ok?
    ensures var ps := ParseParameters(payload).value;
      AllWellFormed(ps) && payload == ParameterBytes(ps) + padding && EndsList(padding)
    decreases |payload|
  {
    if payload == [] || payload[0] == 0 {
      padding := payload;
    } else {
      var (key, rest) := ReadCString(payload).value;
      var (value, rest') := ReadCString(rest).value;
      padding := ParseSound(rest');
      FirstCStringNonempty(payload, key, rest);
      ConsParameter(Parameter(key, value), ParseParameters(rest').value, payload, rest, rest', padding);
    }
  }

  lemma FirstCStringNonempty(payload: Str, key: Str, rest: Str)
    requires payload != [] && payload[0] != 0 && payload == key + [0] + rest
    ensures key != []
  {}

  lemma ConsParameter(p: Parameter, more: seq<Parameter>, payload: Str, rest: Str, rest': Str, padding: Str)
    requires WellFormed(p) && AllWellFormed(more)
    requires payload == p.key + [0] + rest && rest == p.value + [0] + rest'
    requires rest' == ParameterBytes(more) + padding
    ensures AllWellFormed([p] + more) && payload == ParameterBytes([p] + more) + padding
  {
    var ps := [p] + more;
    assert ps[1..] == more;
    Nest(p.key, p.value, ParameterBytes(more), padding);
  }

  /** Every well-formed list is parsed back, whatever tolerated padding follows it. */
  lemma {:induction false} ParseComplete(ps: seq<Parameter>, tail: Str)
    requires AllWellFormed(ps) && EndsList(tail)
    ensures ParseParameters(ParameterBytes(ps) + tail) == Ok(ps)
  {
    if ps == [] {
      assert ParameterBytes(ps) + tail == tail;
    } else {
      ParseComplete(ps[1..], tail);
      assert WellFormed(ps[0]);
      ParseCons(ps[0], ParameterBytes(ps[1..]) + tail, ps[1..]);
      assert ps == [ps[0]] + ps[1..];
      Nest(ps[0].key, ps[0].value, ParameterBytes(ps[1..]), tail);
    }
  }

  lemma Nest(key: Str, value: Str, more: Str, tail: Str)
    ensures key + [0] + (value + [0] + more) + tail == key + [0] + (value + [0] + (more + tail))
  {
    assert value + [0] + more + tail == value + [0] + (more + tail);
  }

  lemma ParseCons(p: Parameter, after: Str, more: seq<Parameter>)
    requires WellFormed(p) && ParseParameters(after) == Ok(more)
    ensures ParseParameters(p.key + [0] + (p.value + [0] + after)) == Ok([p] + more)
  {
    CStringAfter(p.key, p.value + [0] + after);
    CStringAfter(p.value, after);
  }

  method ParseParametersLoop(payload: Str) returns (r: Result<seq<Parameter>, PacketError>)
    ensures r == ParseParameters(payload)
  {
    var params: seq<Parameter> := [];
    var left := payload;
    assert ParseParameters(payload).Ok? ==> params + ParseParameters(payload).value == ParseParameters(payload).value;
    while left != []
      invariant ParseParameters(payload) ==
        match ParseParameters(left) { case Err(e) => Err(e) case Ok(more) => Ok(params + more) }
      decreases |left|
    {
      if left[0] == 0 {
        assert params + [] == params;
        return Ok(params);
      }
      var name := ReadCString(left);
      if name.None? { return Err(UnterminatedName); }
      var value := ReadCString(name.value.1);
      if value.None? { return Err(UnterminatedValue(name.value.0)); }
      ghost var more := ParseParameters(value.value.1);
      if more.Ok? {
        assert params + ([Parameter(name.value.0, value.value.0)] + more.value)
            == params + [Parameter(name.value.0, value.value.0)] + more.value;
      }
      params := params + [Parameter(name.value.0, value.value.0)];
      left := value.value.1;
    }
    assert params + [] == params;
    return Ok(params);
  }

  // ---- Reading a startup-phase packet ----

  function DecodeBody(body: Str): Result<Packet, PacketError>
    requires |body| >= 4
  {
    DecodePayload(AsInt32(Uint32(body[..4])), body[4..])
  }

  function DecodePayload(code: int32, payload: Str): Result<Packet, PacketError> {
    if code == SSL_REQUEST_CODE || code == GSSENC_REQUEST_CODE then
      if payload != [] then Err(NegotiationTrailer(|payload|)) else Ok(Packet(code, [], NO_KEY))
    else if code == CANCEL_REQUEST_CODE then
      if |payload| != 8 then Err(BadCancelLength(|payload|)) else Ok(Packet(code, [], DecodeKey(payload)))
    else if Major(code) != 3 then Err(UnsupportedVersion(Major(code)))
    else match ParseParameters(payload)
      case Err(e) => Err(e)
      case Ok(ps) => Ok(Packet(code, ps, NO_KEY))
  }

  function DecodeKey(b: Str): CancelKey
    requires |b| == 8
  {
    CancelKey(AsInt32(Uint32(b[..4])), AsInt32(Uint32(b[4..])))
  }

  function KeyBytes(k: CancelKey): (b: Str)
    ensures |b| == 8
  {
    BE32(AsUint32(k.pid)) + BE32(AsUint32(k.secret))
  }

  /** The outcome of reading one packet off `input`, and the bytes left unread. */
  function DecodeStartup(input: Str): (r: (Result<Packet, PacketError>, Str)) {
    var (header, afterHeader) := ReadFullOf(input, 4);
    if header.Err? then (Err(Io(header.error)), afterHeader)
    else
      var length := Uint32(header.value);
      if length < MIN_STARTUP_PACKET_LENGTH then (Err(TooShort(length)), afterHeader)
      else if length > MAX_STARTUP_PACKET_LENGTH then (Err(TooLarge(length)), afterHeader)
      else
        var (body, rest) := ReadFullOf(afterHeader, length - 4);
        if body.Err? then (Err(BodyIo(body.error)), rest)
        else (DecodeBody(body.value), rest)
  }

  /** A decoded packet, whose parameter list SetParameter edits in place. */
  class StartupPacket {
    var code: int32
    var parameters: seq<Parameter>
    var cancel: CancelKey

    function View(): Packet
      reads this
    {
      Packet(code, parameters, cancel)
    }

    constructor (p: Packet)
      ensures View() == p
    {
      code, parameters, cancel := p.code, p.parameters, p.cancel;
    }

    method Find(key: Str) returns (r: Option<Str>)
      ensures r == Lookup(parameters, key)
    {
      for i := 0 to |parameters|
        invariant forall j :: 0 <= j < i ==> parameters[j].key != key
      {
        if parameters[i].key == key {
          LookupAt(parameters, key, i);
          return Some(parameters[i].value);
        }
      }
      LookupMissing(parameters, key);
      return None;
    }

    method SetParameter(key: Str, value: Str)
      modifies this`parameters
      ensures parameters == WithParameter(old(parameters), key, value)
    {
      for i := 0 to |parameters|
        invariant parameters == old(parameters)
        invariant forall j :: 0 <= j < i ==> parameters[j].key != key
      {
        if parameters[i].key == key {
          LookupAt(parameters, key, i);
          parameters := parameters[i := Parameter(key, value)];
          return;
        }
      }
      LookupMissing(parameters, key);
      parameters := parameters + [Parameter(key, value)];
    }

    method Encode() returns (buf: Str)
      requires EncodedSize(parameters) < 0x1_0000_0000
      ensures buf == EncodeStartup(View())
    {
      var size := 9;
      for i := 0 to |parameters|
        invariant size + |ParameterBytes(parameters[i..])| == EncodedSize(parameters)
      {
        assert parameters[i..][1..] == parameters[i + 1..];
        size := size + |parameters[i].key| + 1 + |parameters[i].value| + 1;
      }
      assert parameters[|parameters|..] == [];
      buf := BE32(size) + BE32(AsUint32(code));
      assert parameters[0..] == parameters;
      for i := 0 to |parameters|
        invariant buf + ParameterBytes(parameters[i..]) + [0] == EncodeStartup(View())
      {
        assert parameters[i..][1..] == parameters[i + 1..];
        ghost var before := buf;
        buf := buf + parameters[i].key + [0] + parameters[i].value + [0];
        assert buf + ParameterBytes(parameters[i + 1..]) == before + ParameterBytes(parameters[i..]);
      }
      buf := buf + [0];
    }
  }

  /** The index of the first parameter named key, or the length when there is none. */
  function FirstIndex(ps: seq<Parameter>, key: Str): (i: nat)
    ensures i <= |ps|
    ensures i < |ps| ==> ps[i].key == key
    ensures forall j :: 0 <= j < i ==> ps[j].key != key
  {
    if ps == [] || ps[0].key == key then 0 else 1 + FirstIndex(ps[1..], key)
  }

  function Lookup(ps: seq<Parameter>, key: Str): Option<Str> {
    var i := FirstIndex(ps, key);
    if i < |ps| then Some(ps[i].value) else None
  }

  function WithParameter(ps: seq<Parameter>, key: Str, value: Str): seq<Parameter> {
    var i := FirstIndex(ps, key);
    if i < |ps| then ps[i := Parameter(key, value)] else ps + [Parameter(key, value)]
  }

  lemma LookupAt(ps: seq<Parameter>, key: Str, i: nat)
    requires i < |ps| && ps[i].key == key
    requires forall j :: 0 <= j < i ==> ps[j].key != key
    ensures FirstIndex(ps, key) == i
  {}

  lemma LookupMissing(ps: seq<Parameter>, key: Str)
    requires forall j :: 0 <= j < |ps| ==> ps[j].key != key
    ensures FirstIndex(ps, key) == |ps|
  {}

  method ReadStartupPacket(r: Stream) returns (res: Result<StartupPacket, PacketError>)
    modifies r
    ensures res.Ok? ==> fresh(res.value) && DecodeStartup(old(r.rest)).0 == Ok(res.value.View())
    ensures res.Err? ==> DecodeStartup(old(r.rest)).0 == Err(res.error)
    ensures r.rest == DecodeStartup(old(r.rest)).1
  {
    var header := r.ReadFull(4);
    if header.Err? { return Err(Io(header.error)); }
    var length := Uint32(header.value);
    if length < MIN_STARTUP_PACKET_LENGTH { return Err(TooShort(length)); }
    if length > MAX_STARTUP_PACKET_LENGTH { return Err(TooLarge(length)); }
    var body := r.ReadFull(length - 4);
    if body.Err? { return Err(BodyIo(body.error)); }

    var code := AsInt32(Uint32(body.value[..4]));
    var payload := body.value[4..];
    var packet := new StartupPacket(Packet(code, [], NO_KEY));
    if code == SSL_REQUEST_CODE || code == GSSENC_REQUEST_CODE {
      if |payload| != 0 { return Err(NegotiationTrailer(|payload|)); }
      return Ok(packet);
    }
    if code == CANCEL_REQUEST_CODE {
      if |payload| != 8 { return Err(BadCancelLength(|payload|)); }
      packet.cancel := CancelKey(AsInt32(Uint32(payload[..4])), AsInt32(Uint32(payload[4..])));
      return Ok(packet);
    }
    if Major(code) != 3 { return Err(UnsupportedVersion(Major(code))); }
    var params := ParseParametersLoop(payload);
    if params.Err? { return Err(params.error); }
    packet.parameters := params.value;
    return Ok(packet);
  }

  // ---- Encoding ----

  function EncodedSize(ps: seq<Parameter>): nat { 9 + |ParameterBytes(ps)| }

  function EncodeStartup(p: Packet): Str
    requires EncodedSize(p.parameters) < 0x1_0000_0000
  {
    BE32(EncodedSize(p.parameters)) + BE32(AsUint32(p.code)) + ParameterBytes(p.parameters) + [0]
  }

  function EncodeCancelRequest(k: CancelKey): Str {
    BE32(16) + BE32(AsUint32(CANCEL_REQUEST_CODE)) + KeyBytes(k)
  }

  function EncodeBackendKeyData(k: CancelKey): (b: Str)
    ensures |b| == 13
  {
    [MSG_BACKEND_KEY_DATA] + BE32(12) + KeyBytes(k)
  }

  function DecodeBackendKeyData(body: Str): Option<CancelKey> {
    if |body| != 8 then None else Some(DecodeKey(body))
  }

  /** A version 3.x packet that the wire format can carry at all. */
  predicate Encodable(p: Packet) {
    && Major(p.code) == 3
    && p.cancel == NO_KEY
    && AllWellFormed(p.parameters)
    && EncodedSize(p.parameters) <= MAX_STARTUP_PACKET_LENGTH
  }

  // ---- Round trips ----

  lemma KeyRoundTrip(k: CancelKey)
    ensures DecodeKey(KeyBytes(k)) == k
  {
    var b := KeyBytes(k);
    assert b[..4] == BE32(AsUint32(k.pid)) && b[4..] == BE32(AsUint32(k.secret));
    WordRoundTrip(AsUint32(k.pid));
    WordRoundTrip(AsUint32(k.secret));
  }

  lemma KeyBytesRoundTrip(b: Str)
    requires |b| == 8
    ensures KeyBytes(DecodeKey(b)) == b
  {
    BytesRoundTrip(b[..4]);
    BytesRoundTrip(b[4..]);
    assert b == b[..4] + b[4..];
  }

  /** Reading a packet whose length field is honest consumes exactly that many bytes. */
  lemma DecodeFramed(header: Str, body: Str, tail: Str)
    requires |header| == 4 && Uint32(header) == |body| + 4
    requires 4 <= |body| <= MAX_STARTUP_PACKET_LENGTH - 4
    ensures DecodeStartup(header + body + tail) == (DecodeBody(body), tail)
  {
    var input := header + body + tail;
    assert input[..4] == header;
    assert input[4..] == body + tail;
    assert (body + tail)[..|body|] == body && (body + tail)[|body|..] == tail;
  }

  /** Parsing undoes printing, and leaves the bytes behind the packet unread. */
  lemma StartupRoundTrip(p: Packet, tail: Str)
    requires Encodable(p)
    ensures DecodeStartup(EncodeStartup(p) + tail) == (Ok(p), tail)
  {
    var size := EncodedSize(p.parameters);
    WordRoundTrip(size);
    WordRoundTrip(AsUint32(p.code));
    RoundTripParts(p, BE32(size), BE32(AsUint32(p.code)), tail);
  }

  lemma RoundTripParts(p: Packet, header: Str, code: Str, tail: Str)
    requires Encodable(p)
    requires |header| == 4 && Uint32(header) == EncodedSize(p.parameters)
    requires |code| == 4 && Uint32(code) == AsUint32(p.code)
    ensures DecodeStartup(header + code + ParameterBytes(p.parameters) + [0] + tail) == (Ok(p), tail)
  {
    var ps := ParameterBytes(p.parameters);
    var body := code + (ps + [0]);
    assert header + code + ps + [0] + tail == header + body + tail by { JoinLayout(header, body, code, ps, [0], tail); }
    DecodeFramed(header, body, tail);
    assert DecodeBody(body) == Ok(p) by {
      assert body[..4] == code && body[4..] == ps + [0];
      ParseComplete(p.parameters, [0]);
    }
  }

  /** How a version 3 packet that was accepted is laid out in the input it was read from. */
  ghost predicate Layout(input: Str, p: Packet, header: Str, code: Str, padding: Str, rest: Str) {
    && |header| == 4 && |code| == 4
    && input == header + code + ParameterBytes(p.parameters) + padding + rest
    && Uint32(header) == 8 + |ParameterBytes(p.parameters)| + |padding| <= MAX_STARTUP_PACKET_LENGTH
    && Uint32(code) == AsUint32(p.code)
    && AllWellFormed(p.parameters) && p.cancel == NO_KEY
    && EndsList(padding)
  }

  /** An accepted packet is a length word, a body of that length, and what follows. */
  lemma DecodeSplit(input: Str) returns (header: Str, body: Str)
    requires DecodeStartup(input).0.Ok?
    ensures |header| == 4 && 4 <= |body| <= MAX_STARTUP_PACKET_LENGTH - 4 && Uint32(header) == |body| + 4
    ensures input == header + body + DecodeStartup(input).1
    ensures DecodeBody(body) == DecodeStartup(input).0
  {
    var (h, afterHeader) := ReadFullOf(input, 4);
    header := h.value;
    var (b, rest) := ReadFullOf(afterHeader, Uint32(header) - 4);
    body := b.value;
    assert input == header + afterHeader == header + (body + rest);
  }

  lemma DecodedLayout(input: Str) returns (header: Str, code: Str, padding: Str)
    requires DecodeStartup(input).0.Ok? && DecodeStartup(input).0.value.MajorVersion() == 3
    ensures Layout(input, DecodeStartup(input).0.value, header, code, padding, DecodeStartup(input).1)
  {
    var body;
    header, body := DecodeSplit(input);
    code := body[..4];
    padding := BodyLayout(body);
    var ps := ParameterBytes(DecodeBody(body).value.parameters);
    JoinLayout(header, body, code, ps, padding, DecodeStartup(input).1);
  }

  lemma BodyLayout(body: Str) returns (padding: Str)
    requires |body| >= 4 && DecodeBody(body).Ok? && DecodeBody(body).value.MajorVersion() == 3
    ensures var p := DecodeBody(body).value;
      && body == body[..4] + ParameterBytes(p.parameters) + padding
      && Uint32(body[..4]) == AsUint32(p.code)
      && AllWellFormed(p.parameters) && p.cancel == NO_KEY && EndsList(padding)
  {
    padding := PayloadLayout(AsInt32(Uint32(body[..4])), body[4..]);
    assert body == body[..4] + body[4..];
  }

  lemma PayloadLayout(code: int32, payload: Str) returns (padding: Str)
    requires DecodePayload(code, payload).Ok? && Major(code) == 3
    ensures var p := DecodePayload(code, payload).value;
      && p.code == code && p.cancel == NO_KEY
      && payload == ParameterBytes(p.parameters) + padding
      && AllWellFormed(p.parameters) && EndsList(padding)
  {
    padding := ParseSound(payload);
  }

  lemma JoinLayout(header: Str, body: Str, code: Str, ps: Str, padding: Str, rest: Str)
    requires body == code + ps + padding || body == code + (ps + padding)
    ensures header + body + rest == header + code + ps + padding + rest
  {
    assert code + ps + padding == code + (ps + padding);
  }

  /** Printing undoes parsing exactly when one zero closes the list as the packet's last byte. */
  lemma ReencodeExact(input: Str) returns (header: Str, code: Str, padding: Str)
    requires DecodeStartup(input).0.Ok? && DecodeStartup(input).0.value.MajorVersion() == 3
    ensures var (r, rest) := DecodeStartup(input);
      && Layout(input, r.value, header, code, padding, rest)
      && |EncodeStartup(r.value)| == |input| - |rest| - |padding| + 1
      && (EncodeStartup(r.value) == input[..|input| - |rest|] <==> padding == [0])
  {
    header, code, padding := DecodedLayout(input);
    var (r, rest) := DecodeStartup(input);
    ReencodeLayout(input, r.value, header, code, padding, rest);
  }

  lemma ReencodeLayout(input: Str, p: Packet, header: Str, code: Str, padding: Str, rest: Str)
    requires Layout(input, p, header, code, padding, rest)
    ensures EncodeStartup(p) == input[..|input| - |rest|] <==> padding == [0]
  {
    var ps := ParameterBytes(p.parameters);
    assert code == BE32(AsUint32(p.code)) by { BytesRoundTrip(code); }
    EqualTails(BE32(9 + |ps|), code, ps, header, padding) by { BytesRoundTrip(header); }
    assert input[..|input| - |rest|] == header + code + ps + padding;
  }

  lemma EqualTails(size: Str, code: Str, ps: Str, header: Str, padding: Str)
    requires |size| == |header| == 4 && |code| == 4
    requires padding == [0] ==> size == header
    ensures size + code + ps + [0] == header + code + ps + padding <==> padding == [0]
  {
    var a, b := size + code + ps + [0], header + code + ps + padding;
    if a == b {
      assert |padding| == 1;
      assert a[|a| - 1] == b[|b| - 1];
    }
  }

  /** Whatever the client's padding, the forwarded packet means what the client's did. */
  lemma ReencodeCanonical(input: Str, tail: Str)
    requires DecodeStartup(input).0.Ok? && DecodeStartup(input).0.value.MajorVersion() == 3
    ensures var (r, rest) := DecodeStartup(input);
      && EncodedSize(r.value.parameters) <= |input| - |rest| + 1
      && EncodedSize(r.value.parameters) <= MAX_STARTUP_PACKET_LENGTH + 1
      && DecodeStartup(EncodeStartup(r.value) + tail) ==
          if EncodedSize(r.value.parameters) <= MAX_STARTUP_PACKET_LENGTH then (Ok(r.value), tail)
          else (Err(TooLarge(MAX_STARTUP_PACKET_LENGTH + 1)), (EncodeStartup(r.value) + tail)[4..])
  {
    var _, _, padding := DecodedLayout(input);
    ReencodeReads(DecodeStartup(input).0.value, tail);
  }

  /** What holds of every packet read off the wire. */
  lemma ReadPacketIsSound(input: Str)
    requires DecodeStartup(input).0.Ok?
    ensures var p := DecodeStartup(input).0.value;
      && EncodedSize(p.parameters) <= MAX_STARTUP_PACKET_LENGTH + 1
      && (p.IsSSLRequest() || p.IsGSSEncRequest() || p.IsCancelRequest() || p.MajorVersion() == 3)
      && (p.MajorVersion() == 3 ==> AllWellFormed(p.parameters) && p.cancel == NO_KEY)
      && (p.MajorVersion() != 3 ==> p.parameters == [])
  {
    var p := DecodeStartup(input).0.value;
    if p.MajorVersion() == 3 {
      ReencodeCanonical(input, []);
      var _, _, _ := DecodedLayout(input);
    } else {
      var _, body := DecodeSplit(input);
      NoParameters(AsInt32(Uint32(body[..4])), body[4..]);
    }
  }

  lemma NoParameters(code: int32, payload: Str)
    requires DecodePayload(code, payload).Ok? && Major(code) != 3
    ensures var p := DecodePayload(code, payload).value;
      p.parameters == [] && p.code == code && (p.IsSSLRequest() || p.IsGSSEncRequest() || p.IsCancelRequest())
  {}

  /** One parameter, whose value leaves no room to close the list in 10000 bytes. */
  function Overfull(): Packet { Packet(196608, [Parameter([97], seq(9989, _ => 98))], NO_KEY) }

  /** The overfull packet, its parameter list not closed: exactly 10000 bytes. */
  function OverfullBytes(): Str {
    BE32(MAX_STARTUP_PACKET_LENGTH) + (BE32(AsUint32(196608)) + ParameterBytes(Overfull().parameters))
  }

  lemma OverfullSize(ps: seq<Parameter>, p: Parameter)
    requires ps == [p]
    ensures ParameterBytes(ps) == p.key + [0] + (p.value + [0])
  {
    assert ps[1..] == [];
    assert p.value + [0] + [] == p.value + [0];
  }

  /** A packet the gateway accepts and forwards as one it would itself refuse. */
  lemma AcceptedButNotReread(tail: Str)
    ensures |OverfullBytes()| == MAX_STARTUP_PACKET_LENGTH
    ensures DecodeStartup(OverfullBytes()) == (Ok(Overfull()), [])
    ensures EncodedSize(Overfull().parameters) == MAX_STARTUP_PACKET_LENGTH + 1
    ensures DecodeStartup(EncodeStartup(Overfull()) + tail).0 == Err(TooLarge(MAX_STARTUP_PACKET_LENGTH + 1))
  {
    var p := Overfull();
    var ps := p.parameters;
    OverfullSize(ps, ps[0]);
    WordRoundTrip(MAX_STARTUP_PACKET_LENGTH);
    WordRoundTrip(AsUint32(p.code));
    AcceptsUnclosed(p, BE32(MAX_STARTUP_PACKET_LENGTH), BE32(AsUint32(p.code)));
    ReencodeReads(p, tail);
  }

  /** A well-formed list that ends with the packet, unclosed, is accepted. */
  lemma AcceptsUnclosed(p: Packet, header: Str, code: Str)
    requires Major(p.code) == 3 && p.cancel == NO_KEY && AllWellFormed(p.parameters)
    requires 8 + |ParameterBytes(p.parameters)| <= MAX_STARTUP_PACKET_LENGTH
    requires |header| == 4 && Uint32(header) == 8 + |ParameterBytes(p.parameters)|
    requires |code| == 4 && Uint32(code) == AsUint32(p.code)
    ensures DecodeStartup(header + (code + ParameterBytes(p.parameters))) == (Ok(p), [])
  {
    var payload := ParameterBytes(p.parameters);
    ParseComplete(p.parameters, []);
    assert payload + [] == payload;
    ReadsPayload(p, header, code, payload);
  }

  lemma ReadsPayload(p: Packet, header: Str, code: Str, payload: Str)
    requires |header| == 4 && |payload| <= MAX_STARTUP_PACKET_LENGTH - 8 && Uint32(header) == 8 + |payload|
    requires |code| == 4 && Uint32(code) == AsUint32(p.code) && DecodePayload(p.code, payload) == Ok(p)
    ensures DecodeStartup(header + (code + payload)) == (Ok(p), [])
  {
    var body := code + payload;
    assert body[..4] == code && body[4..] == payload;
    DecodeFramed(header, body, []);
    assert header + body + [] == header + body;
  }

  lemma ReencodeReads(p: Packet, tail: Str)
    requires Major(p.code) == 3 && p.cancel == NO_KEY && AllWellFormed(p.parameters)
    requires EncodedSize(p.parameters) < 0x1_0000_0000
    ensures DecodeStartup(EncodeStartup(p) + tail) ==
      if EncodedSize(p.parameters) <= MAX_STARTUP_PACKET_LENGTH then (Ok(p), tail)
      else (Err(TooLarge(EncodedSize(p.parameters))), (EncodeStartup(p) + tail)[4..])
  {
    var size := EncodedSize(p.parameters);
    if size <= MAX_STARTUP_PACKET_LENGTH {
      StartupRoundTrip(p, tail);
    } else {
      WordRoundTrip(size);
      var after := BE32(AsUint32(p.code)) + ParameterBytes(p.parameters) + [0] + tail;
      DecodeTooLarge(BE32(size), after);
      assert EncodeStartup(p) + tail == BE32(size) + after;
    }
  }

  lemma DecodeTooLarge(header: Str, after: Str)
    requires |header| == 4 && Uint32(header) > MAX_STARTUP_PACKET_LENGTH
    ensures DecodeStartup(header + after) == (Err(TooLarge(Uint32(header))), (header + after)[4..])
  {
    assert (header + after)[..4] == header;
  }

  /** A key keeps its identity across every hop of a cancellation. */
  lemma CancelKeyRoundTrip(k: CancelKey, tail: Str)
    ensures DecodeBackendKeyData(EncodeBackendKeyData(k)[5..]) == Some(k)
    ensures DecodeStartup(EncodeCancelRequest(k) + tail) == (Ok(Packet(CANCEL_REQUEST_CODE, [], k)), tail)
  {
    KeyRoundTrip(k);
    assert EncodeBackendKeyData(k)[5..] == KeyBytes(k);
    var body := BE32(AsUint32(CANCEL_REQUEST_CODE)) + KeyBytes(k);
    assert EncodeCancelRequest(k) == BE32(16) + body;
    WordRoundTrip(16);
    DecodeFramed(BE32(16), body, tail);
    WordRoundTrip(AsUint32(CANCEL_REQUEST_CODE));
    assert body[..4] == BE32(AsUint32(CANCEL_REQUEST_CODE)) && body[4..] == KeyBytes(k);
  }
}
