/** One client connection: the pre-startup negotiation, database selection and the forwarded packet. */
module Session {
  import opened Bytes
  import opened Streams
  import opened Protocol
  import opened Api
  import opened Resolver
  import opened Registry

  // ---- Negotiation ----

  const NEGOTIATION_ACCEPTED: byte := 83 // 'S'
  const NEGOTIATION_REJECTED: byte := 78 // 'N'
  const MAX_NEGOTIATION_ROUNDS: nat := 4

  datatype ServerTLS = TLSOff | TLSOn(required: bool)

  /** A TLS handshake over the bytes still unread: the plaintext inside, or failure. */
  type Handshake = Str -> Option<Str>

  datatype NegotiateError =
    ReadFailed(e: PacketError) | ReplyFailed | SecondSSLRequest | HandshakeFailed | TLSRequired | TooManyRounds

  /** How a negotiation ends: its result, the packets read, the replies sent, what stays unread. */
  datatype Negotiation = Negotiation(
    result: Result<Packet, NegotiateError>, encrypted: bool, packets: seq<Packet>, replies: Str, rest: Str)

  /** What the gateway does about one packet. */
  datatype Verdict = Upgrade | Decline | Take | Refuse(e: NegotiateError)

  function Judge(tls: ServerTLS, encrypted: bool, p: Packet): Verdict {
    if p.IsSSLRequest() && tls.TLSOn? then if encrypted then Refuse(SecondSSLRequest) else Upgrade
    else if p.IsSSLRequest() || p.IsGSSEncRequest() then Decline
    else if p.IsCancelRequest() then Take
    else if tls.TLSOn? && tls.required && !encrypted then Refuse(TLSRequired)
    else Take
  }

  /** Reads one packet off a byte stream, leaving the rest. */
  type PacketReader = Str -> (Result<Packet, PacketError>, Str)

  /** The reader that decodes startup packets off the wire. */
  ghost predicate Wire(read: PacketReader) {
    forall input {:trigger DecodeStartup(input)} :: read(input) == DecodeStartup(input)
  }

  /** One round: over, or answered with a reply and to be continued on some stream. */
  datatype Turn = Over(n: Negotiation) | Again(p: Packet, reply: byte, rest: Str, encrypted: bool)

  function TakeTurn(tls: ServerTLS, shake: Handshake, read: PacketReader, input: Str, encrypted: bool,
      room: nat): (turn: Turn)
    ensures turn.Again? ==> room > 0
  {
    var (r, rest) := read(input);
    if r.Err? then Over(Negotiation(Err(ReadFailed(r.error)), encrypted, [], [], rest))
    else match Judge(tls, encrypted, r.value)
      case Refuse(e) => Over(Negotiation(Err(e), encrypted, [r.value], [], rest))
      case Take => Over(Negotiation(Ok(r.value), encrypted, [r.value], [], rest))
      case Decline =>
        if room == 0 then Over(Negotiation(Err(ReplyFailed), encrypted, [r.value], [], rest))
        else Again(r.value, NEGOTIATION_REJECTED, rest, encrypted)
      case Upgrade =>
        if room == 0 then Over(Negotiation(Err(ReplyFailed), encrypted, [r.value], [], rest))
        else match shake(rest)
          case None => Over(Negotiation(Err(HandshakeFailed), encrypted, [r.value], [NEGOTIATION_ACCEPTED], rest))
          case Some(plain) => Again(r.value, NEGOTIATION_ACCEPTED, plain, true)
  }

  /** The automaton from a point with `rounds` left, the peer still taking `room` bytes. */
  function Negotiated(tls: ServerTLS, shake: Handshake, read: PacketReader,
      input: Str, encrypted: bool, rounds: nat, room: nat): Negotiation
    decreases rounds
  {
    if rounds == 0 then Negotiation(Err(TooManyRounds), encrypted, [], [], input)
    else match TakeTurn(tls, shake, read, input, encrypted, room)
      case Over(n) => n
      case Again(p, reply, rest, enc) =>
        Behind(p, reply, Negotiated(tls, shake, read, rest, enc, rounds - 1, room - 1))
  }

  function Behind(p: Packet, reply: byte, n: Negotiation): Negotiation {
    n.(packets := [p] + n.packets, replies := [reply] + n.replies)
  }

  ghost function ViewOf(r: Result<StartupPacket, NegotiateError>): Result<Packet, NegotiateError>
    reads if r.Ok? then {r.value} else {}
  {
    match r
    case Ok(packet) => Ok(packet.View())
    case Err(e) => Err(e)
  }

  /** One round of the loop: a result, or the connection to go on with. */
  method Round(tls: ServerTLS, shake: Handshake, conn: Stream, client: Sink, encrypted: bool, ghost read: PacketReader)
    returns (stop: Option<Result<StartupPacket, NegotiateError>>, next: Stream, secured: bool, ghost turn: Turn)
    requires client.Valid() && Wire(read)
    modifies conn, client
    ensures client.Valid() && (next == conn || fresh(next))
    ensures if secured == encrypted then next == conn else secured && fresh(next)
    ensures turn == TakeTurn(tls, shake, read, old(conn.rest), encrypted, client.capacity - |old(client.written)|)
    ensures stop.Some? <==> turn.Over?
    ensures stop.Some? && stop.value.Ok? ==> fresh(stop.value.value)
    ensures turn.Over? ==> Finished(turn.n, ViewOf(stop.value), secured, next.rest, old(client.written), client.written)
    ensures turn.Again? ==> next.rest == turn.rest && secured == turn.encrypted
    ensures turn.Again? ==> client.written == old(client.written) + [turn.reply]
  {
    next, secured := conn, encrypted;
    turn := TakeTurn(tls, shake, read, conn.rest, encrypted, client.capacity - |client.written|);
    var packet := ReadStartupPacket(conn);
    if packet.Err? { return Some(Err(ReadFailed(packet.error))), next, secured, turn; }
    match Judge(tls, encrypted, packet.value.View()) {
      case Refuse(e) => stop := Some(Err(e));
      case Take => stop := Some(Ok(packet.value));
      case Decline =>
        var ok := client.Write([NEGOTIATION_REJECTED]);
        stop := if ok then None else Some(Err(ReplyFailed));
      case Upgrade =>
        var ok := client.Write([NEGOTIATION_ACCEPTED]);
        if !ok { return Some(Err(ReplyFailed)), next, secured, turn; }
        var plain := shake(conn.rest);
        if plain.None? { return Some(Err(HandshakeFailed)), next, secured, turn; }
        stop, secured := None, true;
        next := new Stream(plain.value);
    }
  }

  /** negotiate's loop, for any bound on the number of rounds; n is what the automaton makes of the stream. */
  method NegotiateLoop(limit: nat, tls: ServerTLS, shake: Handshake, raw: Stream, client: Sink,
      ghost read: PacketReader, ghost n: Negotiation)
    returns (result: Result<StartupPacket, NegotiateError>, conn: Stream, encrypted: bool)
    requires client.Valid() && Wire(read)
    requires Standing(n, [], [], client.written, client.written,
      Negotiated(tls, shake, read, raw.rest, false, limit, client.capacity - |client.written|))
    modifies raw, client
    ensures client.Valid() && (conn == raw || fresh(conn)) && (encrypted <==> conn != raw)
    ensures result.Ok? ==> fresh(result.value)
    ensures Finished(n, ViewOf(result), encrypted, conn.rest, old(client.written), client.written)
  {
    conn, encrypted := raw, false;
    ghost var sent, seen, before := [], [], client.written;
    ghost var room := client.capacity - |client.written|;
    var stop: Option<Result<StartupPacket, NegotiateError>>, round := None, 0;
    while round < limit && stop.None?
      invariant round <= limit && client.Valid()
      invariant (conn == raw || fresh(conn)) && (encrypted <==> conn != raw)
      invariant |sent| <= room && (stop.Some? && stop.value.Ok? ==> fresh(stop.value.value))
      invariant stop.None? ==> Standing(n, seen, sent, before, client.written,
        Negotiated(tls, shake, read, conn.rest, encrypted, limit - round, room - |sent|))
      invariant stop.Some? ==> Finished(n, ViewOf(stop.value), encrypted, conn.rest, before, client.written)
      decreases limit - round, stop.None?
    {
      ghost var here, was, so := conn.rest, encrypted, client.written;
      ghost var turn;
      stop, conn, encrypted, turn := Round(tls, shake, conn, client, encrypted, read);
      Advance(tls, shake, read, here, was, limit - round, room - |sent|,
        turn, n, seen, sent, before, so, client.written);
      if stop.None? {
        seen, sent := seen + [turn.p], sent + [turn.reply];
        round := round + 1;
      }
    }
    if stop.Some? {
      result := stop.value;
    } else {
      result := Err(TooManyRounds);
    }
  }

  /** negotiate: its outcome is the automaton's, and safe, for the source's bound as for any other. */
  method Negotiate(tls: ServerTLS, shake: Handshake, raw: Stream, client: Sink, ghost read: PacketReader,
      limit: nat := MAX_NEGOTIATION_ROUNDS)
    returns (result: Result<StartupPacket, NegotiateError>, conn: Stream, encrypted: bool, ghost n: Negotiation)
    requires client.Valid() && Wire(read)
    modifies raw, client
    ensures client.Valid() && (conn == raw || fresh(conn)) && (encrypted <==> conn != raw)
    ensures result.Ok? ==> fresh(result.value)
    ensures n == Negotiated(tls, shake, read, old(raw.rest), false, limit, client.capacity - |old(client.written)|)
    ensures Finished(n, ViewOf(result), encrypted, conn.rest, old(client.written), client.written)
    ensures Safe(tls, false, limit, n)
  {
    n := Negotiated(tls, shake, read, raw.rest, false, limit, client.capacity - |client.written|);
    NegotiationIsSafe(tls, shake, read, raw.rest, false, limit, client.capacity - |client.written|);
    AfterNothing(n);
    result, conn, encrypted := NegotiateLoop(limit, tls, shake, raw, client, read, n);
  }

  /** Where a negotiation stands: packets seen and replies sent, and the outcome m of the rest of it. */
  ghost predicate Standing(n: Negotiation, seen: seq<Packet>, sent: Str, before: Str, written: Str, m: Negotiation) {
    written == before + sent && n == After(seen, sent, m)
  }

  lemma Advance(tls: ServerTLS, shake: Handshake, read: PacketReader, input: Str, encrypted: bool, rounds: nat,
      room: nat,
      turn: Turn, n: Negotiation, seen: seq<Packet>, sent: Str, before: Str, was: Str, written: Str)
    requires rounds > 0 && turn == TakeTurn(tls, shake, read, input, encrypted, room)
    requires Standing(n, seen, sent, before, was, Negotiated(tls, shake, read, input, encrypted, rounds, room))
    requires written == was + (if turn.Over? then turn.n.replies else [turn.reply])
    ensures match turn
      case Over(m) => Finished(n, m.result, m.encrypted, m.rest, before, written)
      case Again(p, reply, rest, enc) =>
        Standing(n, seen + [p], sent + [reply], before, written,
          Negotiated(tls, shake, read, rest, enc, rounds - 1, room - 1))
  {
    if turn.Again? {
      RunOn(seen, sent, turn.p, turn.reply,
        Negotiated(tls, shake, read, turn.rest, turn.encrypted, rounds - 1, room - 1));
      Append(before, sent, [turn.reply]);
    } else {
      Append(before, sent, turn.n.replies);
    }
  }

  /** A finished negotiation, as its result, its connection and the client saw it. */
  ghost predicate Finished(n: Negotiation, result: Result<Packet, NegotiateError>, encrypted: bool, rest: Str,
      before: Str, written: Str)
  {
    n.result == result && n.encrypted == encrypted && n.rest == rest && written == before + n.replies
  }

  lemma AfterNothing(n: Negotiation)
    ensures After([], [], n) == n
  {
    assert [] + n.packets == n.packets && [] + n.replies == n.replies;
  }

  lemma Append(a: Str, b: Str, c: Str)
    ensures a + b + c == a + (b + c)
  {}

  ghost function After(seen: seq<Packet>, sent: Str, n: Negotiation): Negotiation {
    n.(packets := seen + n.packets, replies := sent + n.replies)
  }

  lemma RunOn(seen: seq<Packet>, sent: Str, p: Packet, reply: byte, m: Negotiation)
    ensures After(seen, sent, Behind(p, reply, m)) == After(seen + [p], sent + [reply], m)
  {
    assert seen + ([p] + m.packets) == seen + [p] + m.packets;
    assert sent + ([reply] + m.replies) == sent + [reply] + m.replies;
  }

  function Count(s: Str, b: byte): nat {
    if s == [] then 0 else (if s[0] == b then 1 else 0) + Count(s[1..], b)
  }

  /** What the automaton guarantees from any point of a negotiation, whatever packets arrive. */
  ghost predicate Safe(tls: ServerTLS, encrypted: bool, rounds: nat, n: Negotiation) {
    var upgrades := Count(n.replies, NEGOTIATION_ACCEPTED);
    && |n.replies| <= |n.packets| <= rounds
    && upgrades <= (if encrypted || tls.TLSOff? then 0 else 1)
    && (encrypted ==> n.encrypted)
    && (n.encrypted ==> encrypted || upgrades == 1)
    && (n.result == Err(HandshakeFailed) ==> !n.encrypted)
    && (n.result.Ok? ==>
          && n.packets != [] && n.result.value == n.packets[|n.packets| - 1]
          && !n.result.value.IsSSLRequest() && !n.result.value.IsGSSEncRequest()
          && |n.replies| == |n.packets| - 1
          && (n.encrypted <==> encrypted || upgrades == 1)
          && (tls.TLSOn? && tls.required && !n.result.value.IsCancelRequest() ==> n.encrypted))
  }

  lemma {:induction false} NegotiationIsSafe(tls: ServerTLS, shake: Handshake, read: PacketReader,
      input: Str, encrypted: bool, rounds: nat, room: nat)
    ensures Safe(tls, encrypted, rounds, Negotiated(tls, shake, read, input, encrypted, rounds, room))
    decreases rounds
  {
    if rounds > 0 {
      var turn := TakeTurn(tls, shake, read, input, encrypted, room);
      TurnIsSafe(tls, shake, read, input, encrypted, rounds, room);
      if turn.Again? {
        NegotiationIsSafe(tls, shake, read, turn.rest, turn.encrypted, rounds - 1, room - 1);
        var more := Negotiated(tls, shake, read, turn.rest, turn.encrypted, rounds - 1, room - 1);
        if turn.reply == NEGOTIATION_ACCEPTED {
          SafeBehindUpgrade(tls, rounds - 1, turn.p, more);
        } else {
          SafeBehindDecline(tls, encrypted, rounds - 1, turn.p, more);
        }
      }
    }
  }

  lemma TurnIsSafe(tls: ServerTLS, shake: Handshake, read: PacketReader, input: Str, encrypted: bool, rounds: nat,
      room: nat)
    requires rounds > 0
    ensures match TakeTurn(tls, shake, read, input, encrypted, room)
      case Over(n) => Safe(tls, encrypted, rounds, n)
      case Again(_, reply, _, enc) =>
        && room > 0
        && if reply == NEGOTIATION_ACCEPTED then !encrypted && enc && tls.TLSOn?
           else reply == NEGOTIATION_REJECTED && enc == encrypted
  {}

  lemma SafeBehindDecline(tls: ServerTLS, encrypted: bool, rounds: nat, p: Packet, n: Negotiation)
    requires Safe(tls, encrypted, rounds, n)
    ensures Safe(tls, encrypted, rounds + 1, Behind(p, NEGOTIATION_REJECTED, n))
  {
    CountBehind(NEGOTIATION_REJECTED, n.replies);
  }

  lemma SafeBehindUpgrade(tls: ServerTLS, rounds: nat, p: Packet, n: Negotiation)
    requires Safe(tls, true, rounds, n) && tls.TLSOn?
    ensures Safe(tls, false, rounds + 1, Behind(p, NEGOTIATION_ACCEPTED, n))
  {
    CountBehind(NEGOTIATION_ACCEPTED, n.replies);
  }

  lemma CountBehind(reply: byte, more: Str)
    ensures Count([reply] + more, NEGOTIATION_ACCEPTED) ==
      (if reply == NEGOTIATION_ACCEPTED then 1 else 0) + Count(more, NEGOTIATION_ACCEPTED)
  {
    assert ([reply] + more)[1..] == more;
  }

  // ---- A well-behaved client is served ----

  /** The stream holds exactly these packets, one after another, before `rest`. */
  ghost predicate ReadsAs(read: PacketReader, input: Str, ps: seq<Packet>, rest: Str)
    decreases |ps|
  {
    if ps == [] then input == rest
    else read(input).0 == Ok(ps[0]) && ReadsAs(read, read(input).1, ps[1..], rest)
  }

  // ---- What each kind of packet leads to, by its code ----

  predicate AsksTLS(p: Packet) { p.code == 80877103 }
  predicate AsksGSS(p: Packet) { p.code == 80877104 }
  predicate AsksCancel(p: Packet) { p.code == 80877102 }
  predicate Ordinary(p: Packet) { !AsksTLS(p) && !AsksGSS(p) && !AsksCancel(p) }

  /** Plaintext is not enough here. */
  predicate NeedsTLS(tls: ServerTLS, encrypted: bool) { tls == TLSOn(true) && !encrypted }

  /** Requests the gateway turns down with an 'N': GSS always, TLS when it has none. */
  predicate Declinable(tls: ServerTLS, p: Packet) { AsksGSS(p) || (AsksTLS(p) && tls == TLSOff) }

  /**
   * An ordinary packet is the result as soon as it is read, unless TLS is on, required and not
   * established: the error is TLSRequired exactly then. A cancel request always is.
   */
  lemma StartupPacketIsTaken(tls: ServerTLS, shake: Handshake, read: PacketReader,
      input: Str, p: Packet, rest: Str, encrypted: bool, rounds: nat, room: nat)
    requires rounds > 0 && read(input) == (Ok(p), rest) && (Ordinary(p) || AsksCancel(p))
    ensures Negotiated(tls, shake, read, input, encrypted, rounds, room) ==
      if Ordinary(p) && NeedsTLS(tls, encrypted) then Negotiation(Err(TLSRequired), encrypted, [p], [], rest)
      else Negotiation(Ok(p), encrypted, [p], [], rest)
  {}

  /** A request that is turned down is answered with one 'N', and the next packet is judged as if it came first. */
  lemma DeclinedRequest(tls: ServerTLS, shake: Handshake, read: PacketReader,
      input: Str, p: Packet, rest: Str, encrypted: bool, rounds: nat, room: nat)
    requires rounds > 0 && room > 0 && read(input) == (Ok(p), rest) && Declinable(tls, p)
    ensures Negotiated(tls, shake, read, input, encrypted, rounds, room) ==
      Behind(p, 'N' as int, Negotiated(tls, shake, read, rest, encrypted, rounds - 1, room - 1))
  {}

  /** A TLS request on a plain connection of a gateway with TLS is answered with one 'S' and the handshake. */
  lemma AcceptedUpgrade(tls: ServerTLS, shake: Handshake, read: PacketReader,
      input: Str, p: Packet, rest: Str, rounds: nat, room: nat)
    requires rounds > 0 && room > 0 && read(input) == (Ok(p), rest) && AsksTLS(p) && tls.TLSOn?
    ensures var n := Negotiated(tls, shake, read, input, false, rounds, room);
      match shake(rest)
      case None => n == Negotiation(Err(HandshakeFailed), false, [p], ['S' as int], rest)
      case Some(plain) =>
        n == Behind(p, 'S' as int, Negotiated(tls, shake, read, plain, true, rounds - 1, room - 1))
  {}

  /** What ends a negotiation with an error before any packet is taken. */
  lemma NegotiationFails(tls: ServerTLS, shake: Handshake, read: PacketReader,
      input: Str, encrypted: bool, rounds: nat, room: nat)
    ensures var n := Negotiated(tls, shake, read, input, encrypted, rounds, room);
      && (rounds == 0 ==> n.result == Err(TooManyRounds))
      && (rounds > 0 && read(input).0.Err? ==> n.result == Err(ReadFailed(read(input).0.error)))
      && (rounds > 0 && read(input).0.Ok? && AsksTLS(read(input).0.value) && tls.TLSOn? && encrypted ==>
            n.result == Err(SecondSSLRequest) && n.replies == [])
      && (rounds > 0 && room == 0 && read(input).0.Ok? && (AsksTLS(read(input).0.value) || AsksGSS(read(input).0.value))
            && !(AsksTLS(read(input).0.value) && tls.TLSOn? && encrypted) ==>
            n.result == Err(ReplyFailed))
  {}

  /** Requests that are turned down cost one round each; then the packet behind them is taken. */
  lemma {:induction false} DeclinedClientIsServed(tls: ServerTLS, shake: Handshake, read: PacketReader,
      input: Str, ps: seq<Packet>, rest: Str, encrypted: bool, rounds: nat, room: nat)
    requires ps != [] && ReadsAs(read, input, ps, rest) && |ps| <= rounds && |ps| <= room + 1
    requires forall i :: 0 <= i < |ps| - 1 ==> Declinable(tls, ps[i])
    requires var last := ps[|ps| - 1]; AsksCancel(last) || (Ordinary(last) && !NeedsTLS(tls, encrypted))
    ensures var n := Negotiated(tls, shake, read, input, encrypted, rounds, room);
      && n.result == Ok(ps[|ps| - 1]) && n.encrypted == encrypted && n.rest == rest
      && n.replies == seq(|ps| - 1, _ => 'N' as int)
    decreases |ps|
  {
    var (_, more) := read(input);
    if |ps| == 1 {
      StartupPacketIsTaken(tls, shake, read, input, ps[0], more, encrypted, rounds, room);
      assert seq(0, _ => 'N' as int) == [];
    } else {
      DeclinedRequest(tls, shake, read, input, ps[0], more, encrypted, rounds, room);
      DeclinedClientIsServed(tls, shake, read, more, ps[1..], rest, encrypted, rounds - 1, room - 1);
      assert ['N' as int] + seq(|ps| - 2, _ => 'N' as int) == seq(|ps| - 1, _ => 'N' as int);
    }
  }

  /** A client that asks for TLS gets it, and is then served over it, also where TLS is required. */
  lemma TLSClientIsServed(tls: ServerTLS, shake: Handshake, read: PacketReader, input: Str, request: Packet,
      plain: Str, ps: seq<Packet>, rest: Str, rounds: nat, room: nat)
    requires tls.TLSOn? && AsksTLS(request) && read(input).0 == Ok(request) && shake(read(input).1) == Some(plain)
    requires ps != [] && ReadsAs(read, plain, ps, rest) && |ps| < rounds && |ps| <= room
    requires forall i :: 0 <= i < |ps| - 1 ==> AsksGSS(ps[i])
    requires Ordinary(ps[|ps| - 1]) || AsksCancel(ps[|ps| - 1])
    ensures var n := Negotiated(tls, shake, read, input, false, rounds, room);
      && n.result == Ok(ps[|ps| - 1]) && n.encrypted && n.rest == rest
      && n.replies == ['S' as int] + seq(|ps| - 1, _ => 'N' as int)
  {
    AcceptedUpgrade(tls, shake, read, input, request, read(input).1, rounds, room);
    DeclinedClientIsServed(tls, shake, read, plain, ps, rest, true, rounds - 1, room - 1);
  }

  /** The packet came off some wire. */
  ghost predicate WasRead(p: Packet) { exists input :: DecodeStartup(input).0 == Ok(p) }

  lemma {:induction false} TakenWasRead(tls: ServerTLS, shake: Handshake, read: PacketReader,
      input: Str, encrypted: bool, rounds: nat, room: nat)
    requires Wire(read)
    ensures var n := Negotiated(tls, shake, read, input, encrypted, rounds, room);
      n.result.Ok? ==> WasRead(n.result.value)
    decreases rounds
  {
    if rounds > 0 {
      assert read(input) == DecodeStartup(input);
      var turn := TakeTurn(tls, shake, read, input, encrypted, room);
      if turn.Again? { TakenWasRead(tls, shake, read, turn.rest, turn.encrypted, rounds - 1, room - 1); }
    }
  }

  // ---- Selecting a database and forwarding the startup packet ----

  const DATABASE: Str := Ascii("database")
  const USER: Str := Ascii("user")

  /** The database a packet asks for; it defaults to the user name. */
  function RequestedDatabase(ps: seq<Parameter>): Option<Str> {
    match Lookup(ps, DATABASE)
    case Some(d) => Some(d)
    case None => Lookup(ps, USER)
  }

  /** The value of the first parameter with this key. */
  ghost predicate FirstValue(ps: seq<Parameter>, key: Str, value: Str) {
    exists i :: 0 <= i < |ps| && ps[i] == Parameter(key, value) && forall j :: 0 <= j < i ==> ps[j].key != key
  }

  ghost predicate Lacks(ps: seq<Parameter>, key: Str) { forall j :: 0 <= j < |ps| ==> ps[j].key != key }

  /** A packet asks for its database parameter or, lacking one, for its user; the first of each counts. */
  lemma AskedDatabase(ps: seq<Parameter>, d: Str)
    ensures RequestedDatabase(ps) == Some(d) <==>
      FirstValue(ps, Ascii("database"), d) || (Lacks(ps, Ascii("database")) && FirstValue(ps, Ascii("user"), d))
    ensures RequestedDatabase(ps) == None <==> Lacks(ps, Ascii("database")) && Lacks(ps, Ascii("user"))
  {
    FoundIsFirst(ps, DATABASE);
    FoundIsFirst(ps, USER);
  }

  lemma FoundIsFirst(ps: seq<Parameter>, key: Str)
    ensures Lookup(ps, key).None? <==> Lacks(ps, key)
    ensures forall v :: Lookup(ps, key) == Some(v) <==> FirstValue(ps, key, v)
  {
    forall v ensures Lookup(ps, key) == Some(v) <==> FirstValue(ps, key, v) {
      var n := FirstIndex(ps, key);
      if n < |ps| && ps[n].value == v { assert ps[n] == Parameter(key, v); }
      if i :| 0 <= i < |ps| && ps[i] == Parameter(key, v) && forall j :: 0 <= j < i ==> ps[j].key != key {
        LookupAt(ps, key, i);
      }
    }
  }

  /** The parameters sent on to the backend of a route. */
  function ForwardedParameters(ps: seq<Parameter>, database: Str, target: Str): seq<Parameter> {
    if target != [] && target != database then WithParameter(ps, DATABASE, target) else ps
  }

  /** Object names have at most 253 bytes, and names in a route's spec at most 63. */
  const MAX_TARGET_LENGTH: nat := 253

  datatype HandleOutcome =
    | NoDatabase
    | NoRoute(database: Str)
    | BackendUnreachable(database: Str)
    | ForwardFailed(database: Str)
    | Proxied(database: Str, route: Route)

  method Handle(startup: StartupPacket, table: map<Str, Route>, reaches: Route -> bool, backend: Sink)
    returns (outcome: HandleOutcome)
    requires backend.Valid() && EncodedSize(startup.parameters) <= MAX_STARTUP_PACKET_LENGTH + 1
    requires forall d :: d in table ==> |table[d].targetDatabase| <= MAX_TARGET_LENGTH
    modifies startup`parameters, backend
    ensures backend.Valid()
    ensures var requested := RequestedDatabase(old(startup.parameters));
      match outcome
      case NoDatabase => requested.None? || requested.value == []
      case NoRoute(d) => requested == Some(d) && d != [] && d !in table
      case BackendUnreachable(d) => requested == Some(d) && d != [] && d in table && !reaches(table[d])
      case ForwardFailed(d) =>
        && requested == Some(d) && d != [] && d in table && reaches(table[d])
        && EncodedSize(startup.parameters) < 0x1_0000_0000
        && |old(backend.written)| + |EncodeStartup(startup.View())| > backend.capacity
      case Proxied(d, route) =>
        && requested == Some(d) && d != [] && d in table && reaches(table[d]) && route == table[d]
        && EncodedSize(startup.parameters) < 0x1_0000_0000
        && |old(backend.written)| + |EncodeStartup(startup.View())| <= backend.capacity
    ensures if outcome.ForwardFailed? || outcome.Proxied? then
        var d := outcome.database;
        && startup.parameters == ForwardedParameters(old(startup.parameters), d, table[d].targetDatabase)
        && backend.written == Appended(old(backend.written), EncodeStartup(startup.View()), backend.capacity)
      else backend.written == old(backend.written)
  {
    var database := startup.Find(DATABASE);
    if database.None? {
      database := startup.Find(USER);
    }
    if database.None? || database.value == [] { return NoDatabase; }
    if database.value !in table { return NoRoute(database.value); }
    var route := table[database.value];
    if !reaches(route) { return BackendUnreachable(database.value); }
    ForwardedSize(startup.parameters, database.value, route.targetDatabase);
    if route.targetDatabase != [] && route.targetDatabase != database.value {
      startup.SetParameter(DATABASE, route.targetDatabase);
    }
    var bytes := startup.Encode();
    var ok := backend.Write(bytes);
    outcome := if ok then Proxied(database.value, route) else ForwardFailed(database.value);
  }

  // ---- Properties of the rewrite ----

  lemma {:induction false} SizeOfUpdate(ps: seq<Parameter>, i: nat, p: Parameter)
    requires i < |ps|
    ensures |ParameterBytes(ps[i := p])| ==
      |ParameterBytes(ps)| - |ps[i].key| - |ps[i].value| + |p.key| + |p.value|
  {
    if i > 0 {
      assert ps[i := p][1..] == ps[1..][i - 1 := p];
      SizeOfUpdate(ps[1..], i - 1, p);
    } else {
      assert ps[0 := p][1..] == ps[1..];
    }
  }

  lemma {:induction false} SizeOfAppend(ps: seq<Parameter>, p: Parameter)
    ensures |ParameterBytes(ps + [p])| == |ParameterBytes(ps)| + |p.key| + |p.value| + 2
  {
    if ps != [] {
      assert (ps + [p])[1..] == ps[1..] + [p];
      SizeOfAppend(ps[1..], p);
    } else {
      assert (ps + [p])[1..] == [];
    }
  }

  lemma ForwardedSize(ps: seq<Parameter>, database: Str, target: Str)
    ensures EncodedSize(ForwardedParameters(ps, database, target)) <= EncodedSize(ps) + 10 + |target|
  {
    var i := FirstIndex(ps, DATABASE);
    var p := Parameter(DATABASE, target);
    if i < |ps| { SizeOfUpdate(ps, i, p); } else { SizeOfAppend(ps, p); }
  }

  /** Every parameter but the database keeps its place and its value. */
  ghost predicate OthersUnchanged(ps: seq<Parameter>, ps': seq<Parameter>) {
    var i := FirstIndex(ps, DATABASE);
    && |ps| <= |ps'| <= |ps| + 1
    && (forall j :: 0 <= j < |ps| && j != i ==> ps'[j] == ps[j])
    && (i < |ps| ==> |ps'| == |ps| && ps'[i].key == DATABASE)
    && (|ps'| > |ps| ==> ps'[|ps|].key == DATABASE)
  }

  /** p' asks for the target, and is otherwise the packet p was. */
  ghost predicate AsksFor(p: Packet, p': Packet, target: Str) {
    && p' == p.(parameters := p'.parameters)
    && RequestedDatabase(p'.parameters) == Some(target) && OthersUnchanged(p.parameters, p'.parameters)
  }

  lemma ForwardedMeaning(ps: seq<Parameter>, database: Str, target: Str)
    requires AllWellFormed(ps) && NulFree(target) && target != []
    requires RequestedDatabase(ps) == Some(database)
    ensures var ps' := ForwardedParameters(ps, database, target);
      AllWellFormed(ps') && RequestedDatabase(ps') == Some(target) && OthersUnchanged(ps, ps')
  {
    var ps' := ForwardedParameters(ps, database, target);
    var i := FirstIndex(ps, DATABASE);
    assert WellFormed(Parameter(DATABASE, target));
    if target != database { LookupAt(ps', DATABASE, i); }
  }

  /** A route's target name is non-empty whenever a client can ask for its database. */
  lemma TargetIsNonempty(w: PostgresRoute)
    requires w.EffectiveDatabase() != []
    ensures TargetOf(w) == w.EffectiveTargetDatabase() != []
  {}

  /**
   * End to end: a packet asking for d is forwarded as a packet asking for the target of d's winner,
   * with every other parameter as the client sent it, whenever it still fits the protocol's limit.
   */
  lemma SelectionEndToEnd(input: Str, tail: Str, routes: set<PostgresRoute>, rv: Answers, s: Snapshot, d: Str)
    returns (w: PostgresRoute)
    requires DecodeStartup(input).0.Ok? && DecodeStartup(input).0.value.MajorVersion() == 3
    requires RequestedDatabase(DecodeStartup(input).0.value.parameters) == Some(d) && d != []
    requires MeetsSpec(routes, rv, s) && Faithful(rv) && d in s.table
    requires forall r :: r in routes ==>
      NulFree(r.EffectiveTargetDatabase()) && |r.EffectiveTargetDatabase()| <= MAX_TARGET_LENGTH
    ensures IsWinner(routes, w) && w.EffectiveDatabase() == d && Claims(w, d) && s.table[d].source == w.Key()
    ensures var (p, rest) := DecodeStartup(input);
      var target := TargetOf(w);
      var ps' := ForwardedParameters(p.value.parameters, d, s.table[d].targetDatabase);
      && s.table[d].targetDatabase == target
      && EncodedSize(ps') <= |input| - |rest| + 11 + |target|
      && RequestedDatabase(ps') == Some(target)
      && OthersUnchanged(p.value.parameters, ps')
      && (EncodedSize(ps') <= MAX_STARTUP_PACKET_LENGTH ==>
            DecodeStartup(EncodeStartup(p.value.(parameters := ps')) + tail) == (Ok(p.value.(parameters := ps')), tail))
  {
    w :| Serves(routes, rv, w, d, s.table[d]);
    var (p, rest) := DecodeStartup(input);
    var _, _, padding := DecodedLayout(input);
    var target := TargetOf(w);
    var ps' := ForwardedParameters(p.value.parameters, d, target);
    ForwardedSize(p.value.parameters, d, target);
    TargetIsNonempty(w);
    ForwardedMeaning(p.value.parameters, d, target);
    if EncodedSize(ps') <= MAX_STARTUP_PACKET_LENGTH {
      StartupRoundTrip(p.value.(parameters := ps'), tail);
    }
  }

  /** A route that renames nothing forwards a canonical packet byte for byte. */
  lemma UnrenamedIsVerbatim(input: Str, d: Str) returns (header: Str, code: Str, padding: Str)
    requires DecodeStartup(input).0.Ok? && DecodeStartup(input).0.value.MajorVersion() == 3
    ensures var (p, rest) := DecodeStartup(input);
      var ps' := ForwardedParameters(p.value.parameters, d, d);
      && Layout(input, p.value, header, code, padding, rest)
      && ps' == p.value.parameters
      && (EncodeStartup(p.value.(parameters := ps')) == input[..|input| - |rest|] <==> padding == [0])
  {
    header, code, padding := ReencodeExact(input);
  }
}
