/** serve, from accept to close, on the fields all sessions share, as steps of the gateway. */
module Server {
  import opened Bytes
  import opened Streams
  import opened Protocol
  import opened Framing
  import opened Api
  import opened Registry
  import opened Cancel
  import opened Relay
  import opened Gateway
  import Errors
  import Session

  // ---- What becomes of a connection, and what its peers get to see ----

  datatype Fate =
    | Refused                                  // the gateway is at its limit
    | NotNegotiated(e: Session.NegotiateError) // no startup packet was accepted
    | CancelRequested(key: CancelKey)
    | Unnamed                                  // neither a database nor a user
    | Unrouted(database: Str)                  // no route claims the database
    | Unreachable(database: Str)               // dialling the route's backend failed
    | Routed(database: Str)

  /** The fate of an admitted connection, from what negotiation made of the client's bytes. */
  function FateOf(n: Session.Negotiation, table: map<Str, Route>, net: Network): (fate: Fate)
    ensures !fate.Refused?
  {
    match n.result
    case Err(e) => NotNegotiated(e)
    case Ok(p) => if p.IsCancelRequest() then CancelRequested(p.cancel) else FateOfPacket(p, table, net)
  }

  function FateOfPacket(p: Packet, table: map<Str, Route>, net: Network): Fate {
    match Session.RequestedDatabase(p.parameters)
    case None => Unnamed
    case Some(d) =>
      if d == [] then Unnamed
      else if d !in table then Unrouted(d)
      else if !net.Reaches(DestinationOf(table[d])) then Unreachable(d)
      else Routed(d)
  }

  datatype Complaint =
    | TooManyConnections(limit: nat) | TLSMissing | DatabaseMissing
    | DatabaseUnknown(database: Str) | BackendDown(database: Str)

  function SqlState(c: Complaint): Str {
    match c
    case TooManyConnections(_) => Ascii("53300")
    case TLSMissing => Ascii("08P01")
    case DatabaseMissing => Ascii("08P01")
    case DatabaseUnknown(_) => Ascii("3D000")
    case BackendDown(_) => Ascii("08006")
  }

  function ComplaintOf(fate: Fate, max: nat): Option<Complaint> {
    match fate
    case Refused => Some(TooManyConnections(max))
    case NotNegotiated(e) => if e.TLSRequired? then Some(TLSMissing) else None
    case Unnamed => Some(DatabaseMissing)
    case Unrouted(d) => Some(DatabaseUnknown(d))
    case Unreachable(d) => Some(BackendDown(d))
    case _ => None
  }

  /** The message and the detail of each complaint. */
  type Wording = Complaint -> (Str, Str)

  function ReplyTo(c: Complaint, wording: Wording): Message {
    Errors.ErrorMessage(Errors.ErrorFields(SqlState(c), wording(c).0, wording(c).1))
  }

  ghost predicate Fits(wording: Wording) { forall c :: Framing.Encodable(ReplyTo(c, wording)) }

  /** Any wording of ordinary length will do. */
  lemma ShortWordingFits(wording: Wording)
    requires forall c :: |wording(c).0| + |wording(c).1| <= 1_000_000
    ensures Fits(wording)
  {
    forall c ensures Framing.Encodable(ReplyTo(c, wording)) {
      Errors.ShortReplyFits(SqlState(c), wording(c).0, wording(c).1);
    }
  }

  /** What the gateway says to the client before it closes a connection that it does not relay. */
  ghost function FinalWords(fate: Fate, max: nat, wording: Wording): Str
    requires Fits(wording)
  {
    match ComplaintOf(fate, max)
    case None => []
    case Some(c) => EncodeMessage(ReplyTo(c, wording))
  }

  /** The SQLSTATE a client is told, by the fate of its connection. */
  function StateFor(fate: Fate): Option<Str> {
    match fate
    case Refused => Some(Ascii("53300"))
    case NotNegotiated(e) => if e == Session.TLSRequired then Some(Ascii("08P01")) else None
    case Unnamed => Some(Ascii("08P01"))
    case Unrouted(_) => Some(Ascii("3D000"))
    case Unreachable(_) => Some(Ascii("08006"))
    case CancelRequested(_) => None
    case Routed(_) => None
  }

  /** The final words as the client reads them: silence, or FATAL with that SQLSTATE and the wording's texts. */
  lemma FinalWordsAreRead(fate: Fate, max: nat, wording: Wording)
    requires Fits(wording) && forall c :: NulFree(wording(c).0) && NulFree(wording(c).1)
    ensures StateFor(fate).None? ==> FinalWords(fate, max, wording) == []
    ensures StateFor(fate).Some? ==>
      var (m, rest) := NextMessage(FinalWords(fate, max, wording));
      && m.Ok? && rest == [] && m.value.kind == 'E' as int && ComplaintOf(fate, max).Some?
      && var texts := wording(ComplaintOf(fate, max).value);
      && Errors.ReadFields(m.value.body) == Some(Errors.ErrorFields(StateFor(fate).value, texts.0, texts.1))
  {
    if StateFor(fate).Some? {
      var c := ComplaintOf(fate, max).value;
      assert Framing.Encodable(ReplyTo(c, wording)) && NulFree(wording(c).0) && NulFree(wording(c).1);
      assert SqlState(c) == StateFor(fate).value;
      Errors.ErrorResponseIsRead(SqlState(c), wording(c).0, wording(c).1, []);
      assert FinalWords(fate, max, wording) + [] == FinalWords(fate, max, wording);
    }
  }

  /** The final words for each fate. */
  type Words = Fate -> Str

  /** The words are the FATAL replies of a server with this limit and wording. */
  ghost predicate Speaks(words: Words, max: nat, wording: Wording) {
    Fits(wording) && forall f {:trigger FinalWords(f, max, wording)} :: words(f) == FinalWords(f, max, wording)
  }

  /** How one relay went: the frames before its stopping point, the keys issued for theirs, the rest, the ending. */
  datatype Account = Account(frames: seq<Message>, issued: seq<CancelKey>, rest: Str, ending: Ending)

  function IssuedIn(account: Option<Account>): seq<CancelKey> {
    if account.Some? then account.value.issued else []
  }

  /** What a peer had received before, what it has received after, and what it can take in all. */
  datatype Line = Line(before: Str, after: Str, capacity: nat) {
    predicate Valid() { |before| <= capacity }
    predicate Took(bytes: Str) { Valid() && after == Appended(before, bytes, capacity) }
    predicate TookAll(bytes: Str) { Took(bytes) && |before| + |bytes| <= capacity }
    predicate Idle() { Valid() && after == before }
    function Room(): int { capacity - |before| }
  }

  ghost predicate Accounts(a: Account, incoming: Str, client: Line) {
    && client.Valid() && Relayable(a.frames) && |a.issued| == |BackendKeys(a.frames)|
    && Relayed(incoming, client.before, client.after, a.frames, a.issued, a.rest, a.ending)
    && a.ending == EndingOf(incoming, client.Room())
    && (a.ending != ClientGone ==> (a.frames, a.rest) == Stop(incoming))
  }

  /** The client, past the negotiation: the relayed stream, or the gateway's final words. */
  ghost predicate ClientSide(words: Str, incoming: Str, account: Option<Account>, client: Line) {
    match account
    case Some(a) => Accounts(a, incoming, client)
    case None => client.Took(words)
  }

  /** The startup packet sent on for a database. */
  function Forwarded(p: Packet, database: Str, table: map<Str, Route>): Packet
    requires database in table
  {
    p.(parameters := Session.ForwardedParameters(p.parameters, database, table[database].targetDatabase))
  }

  /** The backend dialled for a session: the startup packet; the relay starts when all of it got through. */
  predicate BackendSide(fate: Fate, p: Packet, table: map<Str, Route>, relayed: bool, backend: Line) {
    match fate
    case Routed(d) =>
      && d in table && EncodedSize(Forwarded(p, d, table).parameters) < 0x1_0000_0000
      && var bytes := EncodeStartup(Forwarded(p, d, table));
      && backend.Took(bytes) && (relayed <==> backend.TookAll(bytes))
    case _ => backend.Idle() && !relayed
  }

  function Forwards(entries: map<CancelKey, Entry>, key: CancelKey, net: Network, room: int): seq<Forward> {
    if room >= 0 && Deliverable(entries, key, net, room)
    then [Forward(key, DestinationOfEntry(entries[key]), entries[key].backendKey)] else []
  }

  /** The backend dialled for a cancellation: the key it issued itself, if the request names a known one. */
  predicate CancelSide(fate: Fate, entries: map<CancelKey, Entry>, net: Network, cancel: Line, forwards: seq<Forward>) {
    match fate
    case CancelRequested(k) =>
      && forwards == Forwards(entries, k, net, cancel.Room())
      && if k in entries && net.Reaches(DestinationOfEntry(entries[k]))
         then cancel.Took(EncodeCancelRequest(entries[k].backendKey)) else cancel.Idle()
    case _ => forwards == [] && cancel.Idle()
  }

  /** The cancel registry: grown by the keys superseded in the relay, if there was one, and nothing else. */
  ghost predicate RegistrySide(fate: Fate, table: map<Str, Route>, account: Option<Account>,
      before: map<CancelKey, Entry>, after: map<CancelKey, Entry>)
  {
    match account
    case None => after == before
    case Some(a) =>
      && fate.Routed? && fate.database in table && Relayable(a.frames) && |a.issued| == |BackendKeys(a.frames)|
      && AllFresh(a.issued, before)
      && after == Recorded(before, Superseded(a.issued), BackendKeys(a.frames), DestinationOf(table[fate.database]))
  }

  /** One admitted connection: its negotiation, its relay if any, the cancellations sent on, and its peers. */
  datatype Report = Report(n: Session.Negotiation, incoming: Str, account: Option<Account>, forwards: seq<Forward>,
    client: Line, backend: Line, cancel: Line)

  /** The report's account of its peers is true of them; its client is the one that had received `start`. */
  twostate predicate Records(r: Report, start: Str, client: Sink, outgoing: Sink, incoming: Stream, cancel: Sink)
    reads client, outgoing, incoming, cancel
  {
    && r.incoming == old(incoming.rest)
    && r.client == Line(start, client.written, client.capacity)
    && r.backend == Line(old(outgoing.written), outgoing.written, outgoing.capacity)
    && r.cancel == Line(old(cancel.written), cancel.written, cancel.capacity)
  }

  /** What the connection did to all its peers, once it had been negotiated, and to the registry. */
  ghost predicate Conducted(r: Report, table: map<Str, Route>, net: Network, words: Words,
      before: map<CancelKey, Entry>, after: map<CancelKey, Entry>)
  {
    var fate := FateOf(r.n, table, net);
    && (r.n.result.Ok? ==> Session.WasRead(r.n.result.value))
    && ClientSide(words(fate), r.incoming, r.account, r.client)
    && BackendSide(fate, PacketOf(r.n), table, r.account.Some?, r.backend)
    && CancelSide(fate, before, net, r.cancel, r.forwards)
    && RegistrySide(fate, table, r.account, before, after)
  }

  lemma ConductedBySides(fate: Fate, r: Report, table: map<Str, Route>, net: Network, words: Words,
      before: map<CancelKey, Entry>, after: map<CancelKey, Entry>)
    requires fate == FateOf(r.n, table, net) && ClientSide(words(fate), r.incoming, r.account, r.client)
    requires if fate.CancelRequested? || fate.NotNegotiated? then r.backend.Idle() && r.account.None?
      else BackendSide(fate, PacketOf(r.n), table, r.account.Some?, r.backend)
    requires if fate.CancelRequested? then CancelSide(fate, before, net, r.cancel, r.forwards)
      else r.forwards == [] && r.cancel.Idle()
    requires RegistrySide(fate, table, r.account, before, after)
    requires r.n.result.Ok? ==> Session.WasRead(r.n.result.value)
    ensures Conducted(r, table, net, words, before, after)
  {}

  /** A fate that ends the connection without a word. */
  lemma NoWords(words: Words, max: nat, wording: Wording, fate: Fate, client: Line)
    requires Speaks(words, max, wording) && ComplaintOf(fate, max).None? && client.Idle()
    ensures client.Took(words(fate))
  {
    assert words(fate) == FinalWords(fate, max, wording);
    assert client.before + [] == client.before;
  }

  function PacketOf(n: Session.Negotiation): Packet { if n.result.Ok? then n.result.value else Packet(0, [], NO_KEY) }

  /** The server's slot channel, tracked connections and cancel registry, with its TLS and reply settings. */
  class Server {
    const max: nat
    const tls: Session.ServerTLS
    const wording: Wording
    const cancels: CancelRegistry
    var slots: nat
    var active: set<Id>

    constructor (max: nat, tls: Session.ServerTLS, wording: Wording, cancels: CancelRegistry)
      ensures this.max == max && this.tls == tls && this.wording == wording && this.cancels == cancels
      ensures slots == 0 && active == {}
    {
      this.max, this.tls, this.wording, this.cancels, slots, active := max, tls, wording, cancels, 0, {};
    }

    method Track(id: Id)
      modifies this`active
      ensures active == old(active) + {id}
    {
      active := active + {id};
    }

    /** Refuses exactly when a positive limit is reached, and then holds nothing. */
    method AcquireSlot() returns (ok: bool)
      modifies this`slots
      ensures !ok <==> 0 < max <= old(slots)
      ensures slots == if ok && max > 0 then old(slots) + 1 else old(slots)
    {
      if max == 0 { return true; }
      ok := slots < max;
      if ok { slots := slots + 1; }
    }

    /** A receive on the slot channel, which would block if it were empty. */
    method ReleaseSlot()
      requires max > 0 ==> slots > 0
      modifies this`slots
      ensures slots == if max > 0 then old(slots) - 1 else old(slots)
    {
      if max > 0 { slots := slots - 1; }
    }

    method Untrack(id: Id)
      modifies this`active
      ensures active == old(active) - {id}
    {
      active := active - {id};
    }

    /** writeFatal, best effort, for the fates that call for it. */
    method Conclude(fate: Fate, client: Sink, ghost words: Words)
      requires Speaks(words, max, wording) && client.Valid()
      modifies client
      ensures client.Valid() && client.written == Appended(old(client.written), words(fate), client.capacity)
    {
      assert words(fate) == FinalWords(fate, max, wording);
      var complaint := ComplaintOf(fate, max);
      if complaint.None? { return; }
      var c := complaint.value;
      assert Framing.Encodable(ReplyTo(c, wording));
      var reply := Errors.EncodeErrorResponse(SqlState(c), wording(c).0, wording(c).1);
      var _ := client.Write(reply);
    }

    /** relay, for a backend that was dialled and sent the startup packet. */
    method RelaySession(route: Route, client: Sink, incoming: Stream, rng: Entropy)
      returns (ghost account: Account)
      requires client.Valid() && Fair(rng.draws) && |cancels.entries| + |incoming.rest| < KEY_SPACE
      modifies cancels, client, incoming, rng
      ensures client.Valid()
      ensures Accounts(account, old(incoming.rest), Line(old(client.written), client.written, client.capacity))
      ensures AllFresh(account.issued, old(cancels.entries))
      ensures cancels.entries ==
        Recorded(old(cancels.entries), Superseded(account.issued), BackendKeys(account.frames), DestinationOf(route))
    {
      var reader := new MessageReader(incoming);
      ghost var frames, issued, rest;
      var ending;
      ending, frames, issued, rest := RelayFromBackend(client, reader, cancels, rng, DestinationOf(route));
      account := Account(frames, issued, rest, ending);
    }

    /** From the startup packet to the backend that has received it, if it comes to that. */
    method Connect(startup: StartupPacket, table: map<Str, Route>, net: Network, outgoing: Sink)
      returns (fate: Fate, ok: bool)
      requires EncodedSize(startup.parameters) <= MAX_STARTUP_PACKET_LENGTH + 1 && outgoing.Valid() && Bounded(table)
      modifies startup, outgoing
      ensures outgoing.Valid() && fate == FateOfPacket(old(startup.View()), table, net)
      ensures BackendSide(fate, old(startup.View()), table, ok,
        Line(old(outgoing.written), outgoing.written, outgoing.capacity))
    {
      var outcome := Session.Handle(startup, table, r => net.Reaches(DestinationOf(r)), outgoing);
      ok := outcome.Proxied?;
      fate := match outcome {
        case NoDatabase => Unnamed
        case NoRoute(d) => Unrouted(d)
        case BackendUnreachable(d) => Unreachable(d)
        case ForwardFailed(d) => Routed(d)
        case Proxied(d, _) => Routed(d)
      };
    }

    /** The part of handle behind a startup packet that is no cancel request. */
    method HandleSession(startup: StartupPacket, table: map<Str, Route>, net: Network,
        client: Sink, outgoing: Sink, incoming: Stream, rng: Entropy, ghost words: Words)
      returns (fate: Fate, ghost account: Option<Account>)
      requires EncodedSize(startup.parameters) <= MAX_STARTUP_PACKET_LENGTH + 1 && Bounded(table)
      requires Speaks(words, max, wording) && client.Valid() && outgoing.Valid() && client != outgoing
      requires Fair(rng.draws) && |cancels.entries| + |incoming.rest| < KEY_SPACE
      modifies startup, cancels, client, outgoing, incoming, rng
      ensures client.Valid() && outgoing.Valid() && fate == FateOfPacket(old(startup.View()), table, net)
      ensures ClientSide(words(fate), old(incoming.rest), account,
        Line(old(client.written), client.written, client.capacity))
      ensures BackendSide(fate, old(startup.View()), table, account.Some?,
        Line(old(outgoing.written), outgoing.written, outgoing.capacity))
      ensures RegistrySide(fate, table, account, old(cancels.entries), cancels.entries)
    {
      var ok;
      fate, ok := Connect(startup, table, net, outgoing);
      account := None;
      if ok {
        ghost var a := RelaySession(table[fate.database], client, incoming, rng);
        account := Some(a);
      } else {
        Conclude(fate, client, words);
      }
    }

    /** A cancel request: what is reported as forwarded is what was dialled, and written in full. */
    method HandleCancel(key: CancelKey, net: Network, conn: Sink) returns (ghost forwards: seq<Forward>)
      requires conn.Valid()
      modifies conn
      ensures conn.Valid() && CancelSide(CancelRequested(key), cancels.entries, net,
        Line(old(conn.written), conn.written, conn.capacity), forwards)
    {
      var outcome, dialled := ForwardCancel(cancels, key, net, conn);
      forwards :=
        if outcome.Forwarded? then [Forward(key, dialled.value, cancels.entries[key].backendKey)] else [];
    }

    /** What handle does with the outcome of the negotiation: a cancellation, a session, or nothing. */
    method Dispatch(packet: Result<StartupPacket, Session.NegotiateError>, table: map<Str, Route>, net: Network,
        client: Sink, outgoing: Sink, incoming: Stream, cancel: Sink, rng: Entropy,
        ghost words: Words, ghost n: Session.Negotiation)
      returns (fate: Fate, ghost r: Report)
      requires Session.ViewOf(packet) == n.result && (packet.Ok? ==> Session.WasRead(packet.value.View()))
      requires Bounded(table) && Speaks(words, max, wording) && client.Valid() && outgoing.Valid() && cancel.Valid()
      requires client != outgoing && client != cancel && outgoing != cancel
      requires Fair(rng.draws) && |cancels.entries| + |incoming.rest| < KEY_SPACE
      modifies if packet.Ok? then {packet.value} else {}
      modifies cancels, client, outgoing, incoming, cancel, rng
      ensures fate == FateOf(n, table, net) && r.n == n
      ensures Conducted(r, table, net, words, old(cancels.entries), cancels.entries)
      ensures Records(r, old(client.written), client, outgoing, incoming, cancel)
    {
      ghost var account: Option<Account>, forwards: seq<Forward> := None, [];
      match packet {
        case Err(e) =>
          fate := NotNegotiated(e);
          Conclude(fate, client, words);
        case Ok(startup) =>
          if startup.View().IsCancelRequest() {
            fate := CancelRequested(startup.cancel);
            NoWords(words, max, wording, fate, Line(client.written, client.written, client.capacity));
            forwards := HandleCancel(startup.cancel, net, cancel);
          } else {
            ReadFits(startup.View());
            fate, account := HandleSession(startup, table, net, client, outgoing, incoming, rng, words);
          }
      }
      r := Report(n, old(incoming.rest), account, forwards,
        Line(old(client.written), client.written, client.capacity),
        Line(old(outgoing.written), outgoing.written, outgoing.capacity),
        Line(old(cancel.written), cancel.written, cancel.capacity));
      ConductedBySides(fate, r, table, net, words, old(cancels.entries), cancels.entries);
    }

    /** negotiate, with the packet it yields known to come off the wire. */
    method ReadRequest(shake: Session.Handshake, raw: Stream, client: Sink, limit: nat,
        ghost read: Session.PacketReader)
      returns (packet: Result<StartupPacket, Session.NegotiateError>, ghost n: Session.Negotiation)
      requires client.Valid() && Session.Wire(read)
      modifies raw, client
      ensures client.Valid() && client.written == old(client.written) + n.replies
      ensures n == Session.Negotiated(tls, shake, read, old(raw.rest), false, limit,
        client.capacity - |old(client.written)|)
      ensures Session.ViewOf(packet) == n.result
      ensures packet.Ok? ==> fresh(packet.value) && Session.WasRead(packet.value.View())
    {
      ghost var room := client.capacity - |client.written|;
      Session.TakenWasRead(tls, shake, read, raw.rest, false, limit, room);
      var conn, encrypted;
      packet, conn, encrypted, n := Session.Negotiate(tls, shake, raw, client, read, limit);
    }

    /** handle: negotiate, then the cancellation, the session, or nothing. */
    method Handle(table: map<Str, Route>, shake: Session.Handshake, net: Network, raw: Stream, client: Sink,
        outgoing: Sink, incoming: Stream, cancel: Sink, rng: Entropy,
        ghost words: Words, ghost read: Session.PacketReader, limit: nat := Session.MAX_NEGOTIATION_ROUNDS)
      returns (fate: Fate, ghost r: Report)
      requires Session.Wire(read) && Bounded(table)
      requires Speaks(words, max, wording) && client.Valid() && outgoing.Valid() && cancel.Valid()
      requires client != outgoing && client != cancel && outgoing != cancel && raw != incoming
      requires Fair(rng.draws) && |cancels.entries| + |incoming.rest| < KEY_SPACE
      modifies cancels, raw, client, outgoing, incoming, cancel, rng
      ensures r.n == Session.Negotiated(tls, shake, read, old(raw.rest), false, limit,
        client.capacity - |old(client.written)|)
      ensures fate == FateOf(r.n, table, net)
      ensures Conducted(r, table, net, words, old(cancels.entries), cancels.entries)
      ensures Records(r, old(client.written) + r.n.replies, client, outgoing, incoming, cancel)
    {
      ghost var n;
      var packet;
      packet, n := ReadRequest(shake, raw, client, limit, read);
      fate, r := Dispatch(packet, table, net, client, outgoing, incoming, cancel, rng, words, n);
    }

    /** At the limit: a complaint, and nothing is read. */
    method TurnAway(client: Sink, outgoing: Sink, incoming: Stream, cancel: Sink, ghost words: Words)
      returns (ghost r: Report)
      requires Speaks(words, max, wording) && client.Valid() && outgoing.Valid() && cancel.Valid()
      requires client != outgoing && client != cancel
      modifies client
      ensures TurnedAway(r, words) && Records(r, old(client.written), client, outgoing, incoming, cancel)
    {
      Conclude(Refused, client, words);
      r := Report(Session.Negotiation(Err(Session.TooManyRounds), false, [], [], []), incoming.rest, None, [],
        Line(old(client.written), client.written, client.capacity),
        Line(outgoing.written, outgoing.written, outgoing.capacity),
        Line(cancel.written, cancel.written, cancel.capacity));
    }

    /**
     * serve: track, acquire, handle, then release and untrack as deferred. What the client sent, the
     * table, the network and the room each peer has left fix what becomes of the connection and what
     * every peer receives. On every path slots and tracked connections end as they began, the release
     * finds a slot to take, and the registry gains only keys superseded in this session.
     */
    method Serve(id: Id, table: map<Str, Route>, shake: Session.Handshake, net: Network,
        raw: Stream, client: Sink, outgoing: Sink, incoming: Stream, cancel: Sink, rng: Entropy,
        ghost words: Words, ghost read: Session.PacketReader, limit: nat := Session.MAX_NEGOTIATION_ROUNDS)
      returns (fate: Fate, ghost r: Report)
      requires id !in active && Session.Wire(read) && Bounded(table)
      requires Speaks(words, max, wording) && client.Valid() && outgoing.Valid() && cancel.Valid()
      requires client != outgoing && client != cancel && outgoing != cancel && raw != incoming
      requires Fair(rng.draws) && |cancels.entries| + |incoming.rest| < KEY_SPACE
      modifies this`slots, this`active, cancels, raw, client, outgoing, incoming, cancel, rng
      ensures slots == old(slots) && active == old(active)
      ensures fate.Refused? <==> 0 < max <= old(slots)
      ensures fate.Refused? ==>
        && raw.rest == old(raw.rest) && cancels.entries == old(cancels.entries) && TurnedAway(r, words)
        && Records(r, old(client.written), client, outgoing, incoming, cancel)
      ensures !fate.Refused? ==>
        && r.n == Session.Negotiated(tls, shake, read, old(raw.rest), false, limit,
             client.capacity - |old(client.written)|)
        && fate == FateOf(r.n, table, net)
        && Conducted(r, table, net, words, old(cancels.entries), cancels.entries)
        && Records(r, old(client.written) + r.n.replies, client, outgoing, incoming, cancel)
    {
      Track(id);
      var admitted := AcquireSlot();
      if admitted {
        fate, r := Handle(table, shake, net, raw, client, outgoing, incoming, cancel, rng, words, read, limit);
        ReleaseSlot();
      } else {
        fate := Refused;
        r := TurnAway(client, outgoing, incoming, cancel, words);
      }
      Untrack(id);
    }
  }

  /** Names fit the limits of the API: 253 bytes for an object's, 63 for one in a spec. */
  predicate Bounded(table: map<Str, Route>) {
    forall d :: d in table ==> |table[d].targetDatabase| <= Session.MAX_TARGET_LENGTH
  }

  /** A connection refused at the limit: a complaint to the client, and nothing to anyone else. */
  ghost predicate TurnedAway(r: Report, words: Words) {
    && r.client.Took(words(Refused)) && r.backend.Idle() && r.cancel.Idle()
    && r.account.None? && r.forwards == []
  }

  lemma NothingIssued(entries: map<CancelKey, Entry>)
    ensures entries.Keys == entries.Keys + KeySet(Superseded([]))
  {}

  lemma ReadFits(p: Packet)
    requires Session.WasRead(p)
    ensures EncodedSize(p.parameters) <= MAX_STARTUP_PACKET_LENGTH + 1
  {
    var input :| DecodeStartup(input).0 == Ok(p);
    ReadPacketIsSound(input);
  }

  // ---- The events behind the methods ----

  /** The session holds a slot, and handle is about to be called. */
  predicate AdmittedIn(s: State, t: State, id: Id) {
    && t.sessions == s.sessions[id := Admitted] && SameServer(s, t) && t.entries == s.entries
    && t.slots == (if s.max > 0 then s.slots + 1 else s.slots) && t.active == s.active + {id}
  }

  /** The session holds no slot, or no longer one, and is about to be untracked. */
  predicate LeavingIn(s: State, t: State, id: Id) {
    t.sessions == s.sessions[id := Leaving] && SameServer(s, t) && t.slots == s.slots && t.active == s.active + {id}
  }

  /** Handle moves its own session on and touches no other, nor the slots and connections. */
  predicate HandledIn(s: State, t: State, id: Id) {
    t.sessions == s.sessions[id := Handled] && SameServer(s, t) && t.slots == s.slots && t.active == s.active
  }

  lemma OneEvent(s: State, e: Event)
    requires Enabled(s, e)
    ensures IsRun(s, [e], Apply(s, e))
  {
    assert IsRun(Apply(s, e), [], Apply(s, e));
    StepThenRun(s, e, [], Apply(s, e));
    assert [e] + [] == [e];
  }

  lemma UnroutedEvents(s: State, id: Id) returns (t: State, es: seq<Event>)
    requires In(s, id, Admitted)
    ensures IsRun(s, es, t) && HandledIn(s, t, id) && t.entries == s.entries && t.forwards == s.forwards
  {
    t, es := To(s, id, Handled), [EndsUnrouted(id)];
    OneEvent(s, EndsUnrouted(id));
  }

  /** A connection that came to no relay: routed in vain, or not at all. */
  lemma QuietEvents(s: State, id: Id, fate: Fate) returns (t: State, es: seq<Event>)
    requires In(s, id, Admitted) && (fate.Routed? ==> fate.database in s.table)
    ensures IsRun(s, es, t) && HandledIn(s, t, id) && t.entries == s.entries && t.forwards == s.forwards
    ensures s.entries.Keys == s.entries.Keys + KeySet(Superseded([]))
  {
    NothingIssued(s.entries);
    if fate.Routed? {
      t, es := SessionEvents(s, id, fate.database, [], []);
    } else {
      t, es := UnroutedEvents(s, id);
    }
  }

  lemma CancelEvents(s: State, id: Id, key: CancelKey, net: Network, room: int) returns (t: State, es: seq<Event>)
    requires In(s, id, Admitted)
    ensures IsRun(s, es, t) && HandledIn(s, t, id) && t.entries == s.entries
    ensures t.forwards == s.forwards + Forwards(s.entries, key, net, room)
  {
    var e := Cancels(id, key, Forwards(s.entries, key, net, room) != []);
    t, es := Apply(s, e), [e];
    OneEvent(s, e);
  }

  lemma SessionEvents(s: State, id: Id, database: Str, backend: seq<CancelKey>, issued: seq<CancelKey>)
    returns (t: State, es: seq<Event>)
    requires In(s, id, Admitted) && database in s.table && |issued| == |backend| && AllFresh(issued, s.entries)
    ensures IsRun(s, es, t) && HandledIn(s, t, id)
    ensures t.entries == Recorded(s.entries, Superseded(issued), backend, DestinationOf(s.table[database]))
    ensures t.entries.Keys == s.entries.Keys + KeySet(Superseded(issued)) && t.forwards == s.forwards
  {
    var dest := DestinationOf(s.table[database]);
    var routed := StartRelay(s, id, dest);
    t := RelayIsItsEvents(routed, id, dest, backend, issued);
    var relay := KeyEvents(id, backend, issued) + [EndsRelay(id)];
    StepThenRun(s, Routes(id, database), relay, t);
    es := [Routes(id, database)] + relay;
    KeysLeft(s.entries, issued, backend, dest);
  }

  lemma KeysLeft(entries: map<CancelKey, Entry>, issued: seq<CancelKey>, backend: seq<CancelKey>, dest: Destination)
    requires |issued| == |backend|
    ensures Recorded(entries, Superseded(issued), backend, dest).Keys == entries.Keys + KeySet(Superseded(issued))
  {
    RecordedKeys(entries, Superseded(issued), backend, dest);
  }

  lemma Enters(s: State, id: Id) returns (t: State, es: seq<Event>)
    requires In(s, id, Accepted)
    ensures IsRun(s, es, t) && t.entries == s.entries && t.forwards == s.forwards
    ensures if Grants(s) then AdmittedIn(s, t, id) else LeavingIn(s, t, id)
  {
    var s1 := Apply(s, Tracks(id));
    t := Acquire(s1, id);
    OneEvent(s1, AcquiresSlot(id));
    StepThenRun(s, Tracks(id), [AcquiresSlot(id)], t);
    es := [Tracks(id)] + [AcquiresSlot(id)];
  }

  /** handle has returned; the slot is there to be given back. */
  lemma Releases(s: State, id: Id, es: seq<Event>, entered: State, handled: seq<Event>, m: State)
    returns (t: State, fs: seq<Event>)
    requires Reachable(s) && IsRun(s, es, entered) && AdmittedIn(s, entered, id)
    requires IsRun(entered, handled, m) && HandledIn(entered, m, id)
    ensures IsRun(s, fs, t) && LeavingIn(s, t, id)
    ensures t.entries == m.entries && t.forwards == m.forwards && (m.max > 0 ==> m.slots > 0)
  {
    RunThenRun(s, es, entered, handled, m);
    SlotIsThere(s, es + handled, m, id);
    ReleaseStep(s, entered, m, id);
    t := Apply(m, ReleasesSlot(id));
    RunThenStep(s, es + handled, m, ReleasesSlot(id));
    fs := es + handled + [ReleasesSlot(id)];
  }

  lemma SlotIsThere(s: State, es: seq<Event>, m: State, id: Id)
    requires Reachable(s) && IsRun(s, es, m) && In(m, id, Handled)
    ensures m.max > 0 ==> m.slots > 0
  {
    ReachableHolds(s);
    RunPreserves(s, es, m);
    HolderHasSlot(m, id);
  }

  lemma ReleaseStep(s: State, entered: State, m: State, id: Id)
    requires AdmittedIn(s, entered, id) && HandledIn(entered, m, id) && (m.max > 0 ==> m.slots > 0)
    ensures Enabled(m, ReleasesSlot(id)) && LeavingIn(s, Apply(m, ReleasesSlot(id)), id)
    ensures var t := Apply(m, ReleasesSlot(id)); t.entries == m.entries && t.forwards == m.forwards
  {}

  lemma Leaves(s: State, id: Id, es: seq<Event>, m: State) returns (t: State, fs: seq<Event>)
    requires Reachable(s) && In(s, id, Accepted) && IsRun(s, es, m) && LeavingIn(s, m, id)
    ensures IsRun(s, fs, t) && t.entries == m.entries && t.forwards == m.forwards
    ensures t.sessions == s.sessions[id := Untracked]
    ensures t.max == s.max && t.slots == s.slots && t.active == m.active - {id} == s.active
  {
    t := Apply(m, Untracks(id));
    ReachableHolds(s);
    assert id !in s.active;
    RunThenStep(s, es, m, Untracks(id));
    fs := es + [Untracks(id)];
  }

  /** What handle did, as the events of its session. */
  lemma HandledEvents(s: State, id: Id, net: Network, words: Words, r: Report, after: map<CancelKey, Entry>)
    returns (t: State, es: seq<Event>)
    requires In(s, id, Admitted) && Conducted(r, s.table, net, words, s.entries, after)
    ensures IsRun(s, es, t) && HandledIn(s, t, id) && t.entries == after && t.forwards == s.forwards + r.forwards
    ensures after.Keys == s.entries.Keys + KeySet(Superseded(IssuedIn(r.account)))
  {
    var fate := FateOf(r.n, s.table, net);
    match r.account
    case Some(a) => t, es := SessionEvents(s, id, fate.database, BackendKeys(a.frames), a.issued);
    case None =>
      NothingIssued(s.entries);
      if fate.CancelRequested? {
        t, es := CancelEvents(s, id, fate.key, net, r.cancel.Room());
      } else {
        t, es := QuietEvents(s, id, fate);
      }
  }

  /**
   * What serve promises is what the gateway's steps do: from every reachable state, the life of the
   * connection is a run that ends with its slot and its tracking undone, the registry as serve leaves
   * it, and exactly the cancellations it sent on recorded.
   */
  lemma ServeIsARun(s: State, id: Id, net: Network, words: Words, fate: Fate, r: Report, after: map<CancelKey, Entry>)
    returns (t: State, es: seq<Event>)
    requires Reachable(s) && In(s, id, Accepted) && (fate.Refused? <==> 0 < s.max <= s.slots)
    requires if fate.Refused? then TurnedAway(r, words) && after == s.entries
      else Conducted(r, s.table, net, words, s.entries, after)
    ensures IsRun(s, es, t) && t.sessions == s.sessions[id := Untracked]
    ensures t.max == s.max && t.slots == s.slots && t.active == s.active
    ensures t.entries == after && t.forwards == s.forwards + r.forwards
    ensures after.Keys == s.entries.Keys + KeySet(Superseded(IssuedIn(r.account)))
  {
    t, es := Enters(s, id);
    NothingIssued(s.entries);
    if !fate.Refused? {
      var m, handled := HandledEvents(t, id, net, words, r, after);
      t, es := Releases(s, id, es, t, handled, m);
    }
    t, es := Leaves(s, id, es, t);
  }

  // ---- A session from the client's first byte to its last ----

  /** A packet that asks for a database is an ordinary startup packet. */
  lemma AskingIsVersionThree(p: Packet, d: Str) returns (input: Str)
    requires Session.WasRead(p) && Session.RequestedDatabase(p.parameters) == Some(d)
    ensures DecodeStartup(input).0 == Ok(p) && p.MajorVersion() == 3
  {
    input :| DecodeStartup(input).0 == Ok(p);
    ReadPacketIsSound(input);
  }

  /** The targets of these routes can be put into a startup packet. */
  ghost predicate Sendable(routes: set<PostgresRoute>) {
    forall q :: q in routes ==>
      NulFree(q.EffectiveTargetDatabase()) && |q.EffectiveTargetDatabase()| <= Session.MAX_TARGET_LENGTH
  }

  /** The backend of a routed session is asked for the target of the winner, and for nothing else that is new. */
  lemma BackendIsAsked(p: Packet, routes: set<PostgresRoute>, rv: Answers, snapshot: Snapshot, d: Str, backend: Line)
    returns (w: PostgresRoute)
    requires Session.WasRead(p) && Session.RequestedDatabase(p.parameters) == Some(d) && d != []
    requires MeetsSpec(routes, rv, snapshot) && Faithful(rv) && d in snapshot.table && Sendable(routes)
    requires BackendSide(Routed(d), p, snapshot.table, true, backend) && backend.before == []
    ensures IsWinner(routes, w) && w.EffectiveDatabase() == d && Claims(w, d)
    ensures Session.AsksFor(p, Forwarded(p, d, snapshot.table), TargetOf(w))
    ensures |backend.after| <= MAX_STARTUP_PACKET_LENGTH ==>
      DecodeStartup(backend.after) == (Ok(Forwarded(p, d, snapshot.table)), [])
  {
    var input := AskingIsVersionThree(p, d);
    w := Session.SelectionEndToEnd(input, [], routes, rv, snapshot, d);
    var bytes := EncodeStartup(Forwarded(p, d, snapshot.table));
    assert backend.after == bytes && bytes + [] == bytes;
  }

  /** A backend that gets as far as ReadyForQuery is seen by a client with room for it as it is, but for the keys. */
  lemma ClientSeesBackend(a: Account, incoming: Str, client: Line)
    requires Accounts(a, incoming, client) && |incoming| <= client.Room() && ReadyAt(Stop(incoming).1)
    ensures SameButKeys(Stop(incoming).0, incoming, client.before, client.after)
  {
    ReadyIsSpliced(incoming, client.Room());
    RelayIsTransparent(incoming, client.before, client.after, a.frames, a.issued, a.rest);
  }

  lemma RoutedAsksFor(r: Report, table: map<Str, Route>, net: Network, d: Str)
    requires FateOf(r.n, table, net) == Routed(d)
    ensures Session.RequestedDatabase(PacketOf(r.n).parameters) == Some(d) && d != [] && d in table
  {}

  /**
   * End to end, for every connection that serve reports as routed to d and whose backend takes the
   * startup packet: the backend is asked for the target database of the route that won d, with all
   * other parameters as the client sent them, and a client with room for it receives the backend's
   * stream up to and past ReadyForQuery unchanged in length and in every byte outside the keys.
   */
  lemma RoutedEndToEnd(r: Report, routes: set<PostgresRoute>, rv: Answers, snapshot: Snapshot, net: Network,
      words: Words, before: map<CancelKey, Entry>, after: map<CancelKey, Entry>, d: Str) returns (w: PostgresRoute)
    requires Conducted(r, snapshot.table, net, words, before, after) && FateOf(r.n, snapshot.table, net) == Routed(d)
    requires MeetsSpec(routes, rv, snapshot) && Faithful(rv) && Sendable(routes)
    requires r.account.Some? && r.backend.before == [] && d in snapshot.table
    ensures IsWinner(routes, w) && w.EffectiveDatabase() == d && Claims(w, d)
    ensures Session.RequestedDatabase(PacketOf(r.n).parameters) == Some(d)
    ensures var asked := Forwarded(PacketOf(r.n), d, snapshot.table);
      && Session.AsksFor(PacketOf(r.n), asked, TargetOf(w))
      && (|r.backend.after| <= MAX_STARTUP_PACKET_LENGTH ==> DecodeStartup(r.backend.after) == (Ok(asked), []))
    ensures |r.incoming| <= r.client.Room() && ReadyAt(Stop(r.incoming).1) ==>
      SameButKeys(Stop(r.incoming).0, r.incoming, r.client.before, r.client.after)
  {
    RoutedAsksFor(r, snapshot.table, net, d);
    w := BackendIsAsked(PacketOf(r.n), routes, rv, snapshot, d, r.backend);
    if |r.incoming| <= r.client.Room() && ReadyAt(Stop(r.incoming).1) {
      ClientSeesBackend(r.account.value, r.incoming, r.client);
    }
  }
}
