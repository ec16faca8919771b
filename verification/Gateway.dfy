/**
 * The gateway as a whole: sessions from accept to close, connection slots, the tracked
 * connections, the cancel registry, table republication and shutdown, in any interleaving.
 */
module Gateway {
  import opened Bytes
  import opened Protocol
  import opened Registry
  import opened Cancel
  import opened Relay

  type Id = nat

  /** The key a session's client holds, and the backend key it stands for. */
  datatype Held = Held(key: CancelKey, backendKey: CancelKey)

  /** How far a session has come in serve. */
  datatype Phase =
    | Accepted                                                   // goroutine started
    | Tracked                                                    // conn recorded, slot not yet asked for
    | Admitted                                                   // slot held, handshake under way
    | Relaying(dest: Destination, ready: bool, held: Option<Held>) // route taken: dialling, then relaying
    | Handled                                                    // handle returned, slot still held
    | Leaving                                                    // slot given back, or never granted
    | Untracked                                                  // conn forgotten, Done not yet called

  datatype ServerPhase = Serving | Draining | Returned

  datatype Forward = Forward(request: CancelKey, dest: Destination, backendKey: CancelKey)

  /**
   * The last rows are history: keys a later one of their session replaced and whether that ever
   * happened, where each session was routed, the keys each backend sent, the cancellations sent on.
   */
  datatype State = State(
    server: ServerPhase, max: nat, table: map<Str, Route>, sessions: map<Id, Phase>, nextId: Id,
    slots: nat, active: set<Id>, entries: map<CancelKey, Entry>,
    superseded: set<CancelKey>, secondKeys: bool,
    routedTo: map<Id, Destination>, keysSeen: set<(Id, CancelKey)>, forwards: seq<Forward>)

  datatype Event =
    | Accepts
    | Tracks(id: Id)
    | AcquiresSlot(id: Id)
    | Routes(id: Id, database: Str)
    | ReceivesKey(id: Id, backendKey: CancelKey, key: CancelKey)
    | BecomesReady(id: Id)
    | EndsRelay(id: Id)
    | EndsUnrouted(id: Id)
    | Cancels(id: Id, request: CancelKey, delivered: bool) // to the backend dialled for the key, if known
    | ReleasesSlot(id: Id)
    | Untracks(id: Id)
    | Finishes(id: Id)
    | Republishes(table: map<Str, Route>)
    | StopsAccepting
    | StartReturns

  predicate In(s: State, id: Id, p: Phase) { id in s.sessions && s.sessions[id] == p }
  predicate IsRelaying(s: State, id: Id) { id in s.sessions && s.sessions[id].Relaying? }

  predicate Enabled(s: State, e: Event) {
    match e
    case Accepts => s.server.Serving?
    case Tracks(id) => In(s, id, Accepted)
    case AcquiresSlot(id) => In(s, id, Tracked)
    case Routes(id, database) => In(s, id, Admitted) && database in s.table
    case ReceivesKey(id, _, key) =>
      IsRelaying(s, id) && !s.sessions[id].ready && key !in s.entries && key.pid >= 0
    case BecomesReady(id) => IsRelaying(s, id) && !s.sessions[id].ready
    case EndsRelay(id) => IsRelaying(s, id)
    case EndsUnrouted(id) => In(s, id, Admitted)
    case Cancels(id, _, _) => In(s, id, Admitted)
    case ReleasesSlot(id) => In(s, id, Handled) && (s.max > 0 ==> s.slots > 0) // a receive on an empty channel blocks
    case Untracks(id) => In(s, id, Leaving)
    case Finishes(id) => In(s, id, Untracked)
    case Republishes(_) => true
    case StopsAccepting => s.server.Serving?
    case StartReturns => s.server.Draining? && s.sessions == map[] // the WaitGroup reached zero
  }

  function To(s: State, id: Id, p: Phase): State { s.(sessions := s.sessions[id := p]) }

  /** The non-blocking send on the slot channel; a nil channel stands for no limit. */
  predicate Grants(s: State) { s.max == 0 || s.slots < s.max }

  function Acquire(s: State, id: Id): State {
    To(s, id, if Grants(s) then Admitted else Leaving).(
      slots := if s.max > 0 && Grants(s) then s.slots + 1 else s.slots)
  }

  function DestinationOf(r: Route): Destination { Destination(r.Address(), r.tls) }

  function StartRelay(s: State, id: Id, dest: Destination): State {
    To(s, id, Relaying(dest, false, None)).(routedTo := s.routedTo[id := dest])
  }

  function Receive(s: State, id: Id, backendKey: CancelKey, key: CancelKey): State
    requires IsRelaying(s, id)
  {
    var Relaying(dest, ready, held) := s.sessions[id];
    To(s, id, Relaying(dest, ready, Some(Held(key, backendKey)))).(
      entries := s.entries[key := Entry(dest.addr, backendKey, dest.tls)],
      superseded := s.superseded + (if held.Some? then {held.value.key} else {}),
      secondKeys := s.secondKeys || held.Some?,
      keysSeen := s.keysSeen + {(id, backendKey)})
  }

  function End(s: State, id: Id): State
    requires IsRelaying(s, id)
  {
    var held := s.sessions[id].held;
    To(s, id, Handled).(entries := if held.Some? then s.entries - {held.value.key} else s.entries)
  }

  function CancelFor(s: State, request: CancelKey): seq<Forward> {
    if request in s.entries then
      var e := s.entries[request];
      [Forward(request, Destination(e.backendAddr, e.tls), e.backendKey)]
    else []
  }

  function Apply(s: State, e: Event): State
    requires Enabled(s, e)
  {
    match e
    case Accepts => s.(sessions := s.sessions[s.nextId := Accepted], nextId := s.nextId + 1)
    case Tracks(id) => To(s, id, Tracked).(active := s.active + {id})
    case AcquiresSlot(id) => Acquire(s, id)
    case Routes(id, database) => StartRelay(s, id, DestinationOf(s.table[database]))
    case ReceivesKey(id, backendKey, key) => Receive(s, id, backendKey, key)
    case BecomesReady(id) => To(s, id, s.sessions[id].(ready := true))
    case EndsRelay(id) => End(s, id)
    case EndsUnrouted(id) => To(s, id, Handled)
    case Cancels(id, request, delivered) =>
      To(s, id, Handled).(forwards := s.forwards + if delivered then CancelFor(s, request) else [])
    case ReleasesSlot(id) => To(s, id, Leaving).(slots := if s.max > 0 then s.slots - 1 else s.slots)
    case Untracks(id) => To(s, id, Untracked).(active := s.active - {id})
    case Finishes(id) => s.(sessions := s.sessions - {id})
    case Republishes(table) => s.(table := table)
    case StopsAccepting => s.(server := Draining)
    case StartReturns => s.(server := Returned)
  }

  predicate Init(s: State) {
    && s.server == Serving && s.sessions == map[] && s.slots == 0 && s.active == {} && s.entries == map[]
    && s.superseded == {} && !s.secondKeys && s.routedTo == map[] && s.keysSeen == {} && s.forwards == []
  }

  ghost predicate IsRun(s: State, es: seq<Event>, t: State)
    decreases |es|
  {
    if es == [] then s == t else Enabled(s, es[0]) && IsRun(Apply(s, es[0]), es[1..], t)
  }

  // ---- Invariant ----

  predicate HoldsSlot(p: Phase) { p.Admitted? || p.Relaying? || p.Handled? }
  predicate IsTracked(p: Phase) { !p.Accepted? && !p.Untracked? }

  function Holders(sessions: map<Id, Phase>): set<Id> { set id | id in sessions && HoldsSlot(sessions[id]) }
  function TrackedIds(sessions: map<Id, Phase>): set<Id> { set id | id in sessions && IsTracked(sessions[id]) }

  predicate Owns(s: State, id: Id, k: CancelKey) {
    IsRelaying(s, id) && s.sessions[id].held.Some? && s.sessions[id].held.value.key == k
  }

  /** The cancellation leads back to a session: its destination, and a key its backend really sent. */
  ghost predicate Traceable(s: State, dest: Destination, backendKey: CancelKey) {
    exists id :: id in s.routedTo && s.routedTo[id] == dest && (id, backendKey) in s.keysSeen
  }

  /** Slots filled are exactly the slots held; tracked connections exactly the sessions inside serve. */
  ghost predicate Counted(s: State) {
    && s.slots == (if s.max > 0 then |Holders(s.sessions)| else 0)
    && (s.max > 0 ==> s.slots <= s.max)
    && s.active == TrackedIds(s.sessions)
    && (forall id :: id in s.sessions ==> id < s.nextId)
    && (s.server.Returned? ==> s.sessions == map[])
  }

  /** What a relaying session knows of its key is what the registry says of it. */
  ghost predicate Registered(s: State, id: Id) {
    IsRelaying(s, id) ==>
      var Relaying(dest, _, held) := s.sessions[id];
      && id in s.routedTo && s.routedTo[id] == dest
      && (held.Some? ==>
            && held.value.key in s.entries && held.value.key !in s.superseded
            && s.entries[held.value.key] == Entry(dest.addr, held.value.backendKey, dest.tls)
            && (id, held.value.backendKey) in s.keysSeen)
  }

  /** Every registered key has a live owner or was superseded by a later key of its session. */
  ghost predicate Accounted(s: State, k: CancelKey) {
    k in s.entries ==>
      && (k in s.superseded || exists id :: Owns(s, id, k))
      && Traceable(s, Destination(s.entries[k].backendAddr, s.entries[k].tls), s.entries[k].backendKey)
  }

  /** A session is routed at most once, and never before it was admitted. */
  ghost predicate RoutedOnce(s: State, id: Id) {
    id in s.routedTo ==> id < s.nextId && (id in s.sessions ==>
      !s.sessions[id].Accepted? && !s.sessions[id].Tracked? && !s.sessions[id].Admitted?)
  }

  ghost predicate Keyed(s: State) {
    && (forall id :: Registered(s, id) && RoutedOnce(s, id))
    && (forall i, j, k :: Owns(s, i, k) && Owns(s, j, k) ==> i == j)
    && (forall k :: Accounted(s, k))
    && s.superseded <= s.entries.Keys
    && (s.secondKeys <==> s.superseded != {})
    && (forall f :: f in s.forwards ==> Traceable(s, f.dest, f.backendKey))
  }

  ghost predicate Inv(s: State) { Counted(s) && Keyed(s) }

  lemma InitHolds(s: State)
    requires Init(s)
    ensures Inv(s)
  {}

  // ---- Counting ----

  lemma HoldersAfter(sessions: map<Id, Phase>, id: Id, p: Phase)
    ensures Holders(sessions[id := p]) == if HoldsSlot(p) then Holders(sessions) + {id} else Holders(sessions) - {id}
    ensures TrackedIds(sessions[id := p]) ==
      if IsTracked(p) then TrackedIds(sessions) + {id} else TrackedIds(sessions) - {id}
  {}

  function Delta(max: nat, before: Phase, after: Phase): int {
    if max == 0 || HoldsSlot(before) == HoldsSlot(after) then 0 else if HoldsSlot(after) then 1 else -1
  }

  /** Moving one session between phases keeps the counts if slot and tracking follow the move. */
  lemma CountedMove(s: State, t: State, id: Id, p: Phase)
    requires Counted(s) && id in s.sessions && t.sessions == s.sessions[id := p]
    requires t.server == s.server && t.max == s.max && t.nextId == s.nextId
    requires t.slots == s.slots + Delta(s.max, s.sessions[id], p) && (t.max > 0 ==> t.slots <= t.max)
    requires t.active == if IsTracked(p) then s.active + {id} else s.active - {id}
    ensures Counted(t)
  {
    HoldersAfter(s.sessions, id, p);
  }

  lemma CountedSession(s: State, e: Event)
    requires Counted(s) && Enabled(s, e)
    requires e.Tracks? || e.Untracks? || e.EndsUnrouted? || e.Cancels?
    ensures Counted(Apply(s, e))
  {
    var t := Apply(s, e);
    CountedMove(s, t, e.id, t.sessions[e.id]);
  }

  lemma CountedAcquire(s: State, id: Id)
    requires Counted(s) && Enabled(s, AcquiresSlot(id))
    ensures Counted(Acquire(s, id))
  {
    CountedMove(s, Acquire(s, id), id, if Grants(s) then Admitted else Leaving);
  }

  lemma CountedRelease(s: State, id: Id)
    requires Counted(s) && Enabled(s, ReleasesSlot(id))
    ensures Counted(Apply(s, ReleasesSlot(id)))
  {
    CountedMove(s, Apply(s, ReleasesSlot(id)), id, Leaving);
  }

  lemma CountedRelay(s: State, e: Event)
    requires Counted(s) && Enabled(s, e) && (e.Routes? || e.BecomesReady? || e.EndsRelay?)
    ensures Counted(Apply(s, e))
  {
    var t := Apply(s, e);
    CountedMove(s, t, e.id, t.sessions[e.id]);
  }

  lemma CountedReceives(s: State, id: Id, backendKey: CancelKey, key: CancelKey)
    requires Counted(s) && Enabled(s, ReceivesKey(id, backendKey, key))
    ensures Counted(Receive(s, id, backendKey, key))
  {
    var t := Receive(s, id, backendKey, key);
    CountedMove(s, t, id, t.sessions[id]);
  }

  lemma CountedPreserved(s: State, e: Event)
    requires Counted(s) && Enabled(s, e)
    ensures Counted(Apply(s, e))
  {
    match e
    case Accepts => HoldersAfter(s.sessions, s.nextId, Accepted); assert Counted(Apply(s, Accepts));
    case Finishes(id) => CountedFinish(s, id);
    case AcquiresSlot(id) => CountedAcquire(s, id);
    case ReleasesSlot(id) => CountedRelease(s, id);
    case Republishes(table) => assert Counted(Apply(s, Republishes(table)));
    case StopsAccepting => assert Counted(Apply(s, StopsAccepting));
    case StartReturns => assert Counted(Apply(s, StartReturns));
    case Routes(_, _) => CountedRelay(s, e);
    case ReceivesKey(id, backendKey, key) => CountedReceives(s, id, backendKey, key);
    case BecomesReady(_) => CountedRelay(s, e);
    case EndsRelay(_) => CountedRelay(s, e);
    case _ => CountedSession(s, e);
  }

  lemma CountedFinish(s: State, id: Id)
    requires Counted(s) && Enabled(s, Finishes(id))
    ensures Counted(Apply(s, Finishes(id)))
  {
    assert Holders(s.sessions - {id}) == Holders(s.sessions);
    assert TrackedIds(s.sessions - {id}) == TrackedIds(s.sessions);
  }

  // ---- Keys ----

  /** A step that leaves ownership and the registry alone, and at most adds history. */
  lemma KeyedFrame(s: State, t: State)
    requires Keyed(s)
    requires t.entries == s.entries && t.superseded == s.superseded && t.secondKeys == s.secondKeys
    requires t.forwards == s.forwards && s.keysSeen <= t.keysSeen
    requires forall id :: id in s.routedTo ==> id in t.routedTo && t.routedTo[id] == s.routedTo[id]
    requires forall id :: Registered(t, id) && RoutedOnce(t, id)
    requires forall i, k :: Owns(t, i, k) <==> Owns(s, i, k)
    ensures Keyed(t)
  {
    forall k ensures Accounted(t, k) {
      assert Accounted(s, k);
      if k in s.entries {
        KeepsTrace(s, t, Destination(s.entries[k].backendAddr, s.entries[k].tls), s.entries[k].backendKey);
        if i :| Owns(s, i, k) { assert Owns(t, i, k); }
      }
    }
    forall f | f in t.forwards ensures Traceable(t, f.dest, f.backendKey) { KeepsTrace(s, t, f.dest, f.backendKey); }
  }

  lemma KeepsTrace(s: State, t: State, dest: Destination, backendKey: CancelKey)
    requires Traceable(s, dest, backendKey)
    requires forall id :: id in s.routedTo ==> id in t.routedTo && t.routedTo[id] == s.routedTo[id]
    requires s.keysSeen <= t.keysSeen
    ensures Traceable(t, dest, backendKey)
  {}

  /** Moving a session between phases outside the relay. */
  lemma KeyedMove(s: State, t: State, id: Id, p: Phase)
    requires Keyed(s) && id in s.sessions && !IsRelaying(s, id) && !p.Relaying?
    requires t.sessions == s.sessions[id := p] && t.nextId == s.nextId
    requires t.entries == s.entries && t.superseded == s.superseded && t.secondKeys == s.secondKeys
    requires t.routedTo == s.routedTo && t.keysSeen == s.keysSeen && t.forwards == s.forwards
    requires p.Tracked? || p.Admitted? ==> id !in s.routedTo
    requires !p.Accepted?
    ensures Keyed(t)
  {
    forall i ensures Registered(t, i) && RoutedOnce(t, i) { assert Registered(s, i) && RoutedOnce(s, i); }
    forall i, k ensures Owns(t, i, k) <==> Owns(s, i, k) {}
    KeyedFrame(s, t);
  }

  lemma KeyedEntry(s: State, e: Event)
    requires Inv(s) && Enabled(s, e) && (e.Tracks? || e.EndsUnrouted?)
    ensures Keyed(Apply(s, e))
  {
    var t := Apply(s, e);
    assert RoutedOnce(s, e.id);
    KeyedMove(s, t, e.id, t.sessions[e.id]);
  }

  lemma KeyedSlot(s: State, id: Id)
    requires Inv(s) && Enabled(s, AcquiresSlot(id))
    ensures Keyed(Apply(s, AcquiresSlot(id)))
  {
    assert RoutedOnce(s, id);
    KeyedMove(s, Acquire(s, id), id, if Grants(s) then Admitted else Leaving);
  }

  lemma KeyedExit(s: State, e: Event)
    requires Inv(s) && Enabled(s, e) && (e.ReleasesSlot? || e.Untracks?)
    ensures Keyed(Apply(s, e))
  {
    var t := Apply(s, e);
    KeyedMove(s, t, e.id, t.sessions[e.id]);
  }

  lemma KeyedServer(s: State, e: Event)
    requires Inv(s) && Enabled(s, e)
    requires e.Accepts? || e.Finishes? || e.Republishes? || e.StopsAccepting? || e.StartReturns?
    ensures Keyed(Apply(s, e))
  {
    var t := Apply(s, e);
    forall i ensures Registered(t, i) && RoutedOnce(t, i) { assert Registered(s, i) && RoutedOnce(s, i); }
    forall i, k ensures Owns(t, i, k) <==> Owns(s, i, k) {}
    KeyedFrame(s, t);
  }

  lemma KeyedRoutes(s: State, id: Id, database: Str)
    requires Inv(s) && Enabled(s, Routes(id, database))
    ensures Keyed(Apply(s, Routes(id, database)))
  {
    var t := Apply(s, Routes(id, database));
    forall i ensures Registered(t, i) && RoutedOnce(t, i) { assert Registered(s, i) && RoutedOnce(s, i); }
    forall i, k ensures Owns(t, i, k) <==> Owns(s, i, k) {}
    assert RoutedOnce(s, id);
    KeyedFrame(s, t);
  }

  lemma KeyedReady(s: State, id: Id)
    requires Inv(s) && Enabled(s, BecomesReady(id))
    ensures Keyed(Apply(s, BecomesReady(id)))
  {
    var t := Apply(s, BecomesReady(id));
    forall i ensures Registered(t, i) && RoutedOnce(t, i) { assert Registered(s, i) && RoutedOnce(s, i); }
    forall i, k ensures Owns(t, i, k) <==> Owns(s, i, k) {}
    KeyedFrame(s, t);
  }

  lemma KeyedReceives(s: State, id: Id, backendKey: CancelKey, key: CancelKey)
    requires Inv(s) && Enabled(s, ReceivesKey(id, backendKey, key))
    ensures Keyed(Apply(s, ReceivesKey(id, backendKey, key)))
  {
    var t := Apply(s, ReceivesKey(id, backendKey, key));
    var before := s.sessions[id].held;
    assert Registered(s, id) && RoutedOnce(s, id);
    forall i ensures Registered(t, i) && RoutedOnce(t, i) {
      assert Registered(s, i) && RoutedOnce(s, i);
      if i != id && IsRelaying(s, i) && s.sessions[i].held.Some? {
        assert Owns(s, i, s.sessions[i].held.value.key);
        if before.Some? { assert Owns(s, id, before.value.key); }
      }
    }
    forall i, k ensures Owns(t, i, k) <==> if i == id then k == key else Owns(s, i, k) {}
    forall i | i != id ensures !Owns(s, i, key) { assert Registered(s, i); }
    forall k ensures Accounted(t, k) { ReceivesAccounted(s, id, backendKey, key, k); }
    forall f | f in t.forwards ensures Traceable(t, f.dest, f.backendKey) { KeepsTrace(s, t, f.dest, f.backendKey); }
  }

  lemma ReceivesAccounted(s: State, id: Id, backendKey: CancelKey, key: CancelKey, k: CancelKey)
    requires Inv(s) && Enabled(s, ReceivesKey(id, backendKey, key))
    ensures Accounted(Apply(s, ReceivesKey(id, backendKey, key)), k)
  {
    var t := Apply(s, ReceivesKey(id, backendKey, key));
    assert Registered(s, id) && Accounted(s, k);
    if k == key {
      assert Owns(t, id, k);
      assert id in t.routedTo && (id, backendKey) in t.keysSeen;
    } else if k in s.entries {
      KeepsTrace(s, t, Destination(s.entries[k].backendAddr, s.entries[k].tls), s.entries[k].backendKey);
      if k !in s.superseded {
        var i :| Owns(s, i, k);
        if i != id { assert Owns(t, i, k); }
      }
    }
  }

  lemma KeyedEnds(s: State, id: Id)
    requires Inv(s) && Enabled(s, EndsRelay(id))
    ensures Keyed(Apply(s, EndsRelay(id)))
  {
    var t := Apply(s, EndsRelay(id));
    var held := s.sessions[id].held;
    assert Registered(s, id);
    forall i ensures Registered(t, i) && RoutedOnce(t, i) {
      assert Registered(s, i) && RoutedOnce(s, i);
      if held.Some? && i != id && IsRelaying(s, i) && s.sessions[i].held.Some? {
        assert Owns(s, i, s.sessions[i].held.value.key) && Owns(s, id, held.value.key);
      }
    }
    forall i, k ensures Owns(t, i, k) <==> i != id && Owns(s, i, k) {}
    forall k ensures Accounted(t, k) {
      assert Accounted(s, k);
      if k in t.entries {
        KeepsTrace(s, t, Destination(s.entries[k].backendAddr, s.entries[k].tls), s.entries[k].backendKey);
        if k !in s.superseded {
          var i :| Owns(s, i, k);
          assert Owns(t, i, k);
        }
      }
    }
    forall f | f in t.forwards ensures Traceable(t, f.dest, f.backendKey) { KeepsTrace(s, t, f.dest, f.backendKey); }
  }

  lemma KeyedCancel(s: State, id: Id, request: CancelKey, delivered: bool)
    requires Inv(s) && Enabled(s, Cancels(id, request, delivered))
    ensures Keyed(Apply(s, Cancels(id, request, delivered)))
  {
    var u := To(s, id, Handled);
    KeyedMove(s, u, id, Handled);
    assert Accounted(u, request);
    var t := Apply(s, Cancels(id, request, delivered));
    assert t == u.(forwards := s.forwards + if delivered then CancelFor(s, request) else []);
    forall i ensures Registered(t, i) && RoutedOnce(t, i) { assert Registered(u, i) && RoutedOnce(u, i); }
    forall k ensures Accounted(t, k) { assert Accounted(u, k); OwnersKept(u, t, k); }
    forall i, j, k | Owns(t, i, k) && Owns(t, j, k) ensures i == j { assert Owns(u, i, k) && Owns(u, j, k); }
    forall f | f in t.forwards ensures Traceable(t, f.dest, f.backendKey) { KeepsTrace(u, t, f.dest, f.backendKey); }
  }

  lemma OwnersKept(s: State, t: State, k: CancelKey)
    requires Accounted(s, k) && t.entries == s.entries && t.superseded == s.superseded && t.sessions == s.sessions
    requires t.routedTo == s.routedTo && t.keysSeen == s.keysSeen
    ensures Accounted(t, k)
  {
    if k in s.entries {
      KeepsTrace(s, t, Destination(s.entries[k].backendAddr, s.entries[k].tls), s.entries[k].backendKey);
      if id :| Owns(s, id, k) { assert Owns(t, id, k); }
    }
  }

  lemma KeyedPreserved(s: State, e: Event)
    requires Inv(s) && Enabled(s, e)
    ensures Keyed(Apply(s, e))
  {
    match e
    case Routes(id, database) => KeyedRoutes(s, id, database);
    case ReceivesKey(id, backendKey, key) => KeyedReceives(s, id, backendKey, key);
    case BecomesReady(id) => KeyedReady(s, id);
    case EndsRelay(id) => KeyedEnds(s, id);
    case Cancels(id, request, delivered) => KeyedCancel(s, id, request, delivered);
    case Tracks(_) => KeyedEntry(s, e);
    case AcquiresSlot(id) => KeyedSlot(s, id);
    case EndsUnrouted(_) => KeyedEntry(s, e);
    case ReleasesSlot(_) => KeyedExit(s, e);
    case Untracks(_) => KeyedExit(s, e);
    case _ => KeyedServer(s, e);
  }

  lemma {:induction false} RunPreserves(s: State, es: seq<Event>, t: State)
    requires Inv(s) && IsRun(s, es, t)
    ensures Inv(t)
    decreases |es|
  {
    if es != [] {
      CountedPreserved(s, es[0]);
      KeyedPreserved(s, es[0]);
      RunPreserves(Apply(s, es[0]), es[1..], t);
    }
  }

  ghost predicate Reachable(t: State) { exists s, es :: Init(s) && IsRun(s, es, t) }

  lemma ReachableHolds(t: State)
    requires Reachable(t)
    ensures Inv(t)
  {
    var s, es :| Init(s) && IsRun(s, es, t);
    InitHolds(s);
    RunPreserves(s, es, t);
  }

  // ---- Theorems about whole runs ----

  /** Admission: the slots filled are those held, within the limit, and giving one back never blocks. */
  lemma AdmissionIsBounded(s: State, es: seq<Event>, t: State)
    requires Init(s) && IsRun(s, es, t)
    ensures t.max > 0 ==> t.slots == |Holders(t.sessions)| <= t.max
    ensures forall id :: In(t, id, Handled) ==> Enabled(t, ReleasesSlot(id))
  {
    InitHolds(s);
    RunPreserves(s, es, t);
    forall id | In(t, id, Handled) ensures Enabled(t, ReleasesSlot(id)) { HolderHasSlot(t, id); }
  }

  /** When Start has returned, nothing of any session remains, save keys a second key superseded. */
  lemma ReturnedMeansQuiet(s: State, es: seq<Event>, t: State)
    requires Init(s) && IsRun(s, es, t) && t.server.Returned?
    ensures t.slots == 0 && t.active == {} && t.entries.Keys == t.superseded
    ensures t.entries == map[] <==> !t.secondKeys
  {
    InitHolds(s);
    RunPreserves(s, es, t);
    assert Holders(t.sessions) == {} && TrackedIds(t.sessions) == {};
    forall k ensures k in t.entries <==> k in t.superseded { assert Accounted(t, k); }
  }

  /**
   * Key by key, whatever other sessions do: a key is registered exactly when a live session owns it
   * or a later key of its own session superseded it, never both, and it has at most one owner.
   */
  lemma RegistryIsExact(s: State, es: seq<Event>, t: State, k: CancelKey)
    requires Init(s) && IsRun(s, es, t)
    ensures k in t.entries <==> k in t.superseded || exists id :: Owns(t, id, k)
    ensures k in t.superseded ==> forall id :: !Owns(t, id, k)
    ensures forall i, j :: Owns(t, i, k) && Owns(t, j, k) ==> i == j
  {
    InitHolds(s);
    RunPreserves(s, es, t);
    assert Accounted(t, k);
    forall id | Owns(t, id, k) ensures k in t.entries && k !in t.superseded { assert Registered(t, id); }
  }

  /** Past the relay, on the way out. */
  predicate Done(p: Phase) { p.Handled? || p.Leaving? || p.Untracked? }

  /** The session is gone, on its way out, or relaying just like this. */
  predicate RelaysAsBefore(t: State, id: Id, p: Phase) {
    id < t.nextId && (id in t.sessions ==> t.sessions[id] == p || Done(t.sessions[id]))
  }

  lemma StepKeepsReady(s: State, e: Event, id: Id, p: Phase)
    requires Enabled(s, e) && p.Relaying? && p.ready && RelaysAsBefore(s, id, p)
    ensures RelaysAsBefore(Apply(s, e), id, p)
  {}

  /** Keys come before ReadyForQuery: what a session holds by then it holds to its end, in every run. */
  lemma {:induction false} ReadyKeyIsFinal(s: State, es: seq<Event>, t: State, id: Id, p: Phase)
    requires p.Relaying? && p.ready && RelaysAsBefore(s, id, p) && IsRun(s, es, t)
    ensures RelaysAsBefore(t, id, p)
    decreases |es|
  {
    if es != [] {
      StepKeepsReady(s, es[0], id, p);
      ReadyKeyIsFinal(Apply(s, es[0]), es[1..], t, id, p);
    }
  }

  /** From the step that sees ReadyForQuery on, the session's key and destination stay what they were. */
  lemma KeysComeFirst(s: State, es: seq<Event>, m: State, id: Id, fs: seq<Event>, t: State)
    requires Init(s) && IsRun(s, es, m) && Enabled(m, BecomesReady(id)) && IsRun(Apply(m, BecomesReady(id)), fs, t)
    ensures IsRelaying(t, id) ==>
      && t.sessions[id].held == m.sessions[id].held && t.sessions[id].dest == m.sessions[id].dest
      && forall backendKey, key :: !Enabled(t, ReceivesKey(id, backendKey, key))
  {
    InitHolds(s);
    RunPreserves(s, es, m);
    ReadyKeyIsFinal(Apply(m, BecomesReady(id)), fs, t, id, m.sessions[id].(ready := true));
  }

  lemma OwnedKeyLeadsHome(t: State, owner: Id, request: CancelKey)
    requires Inv(t) && Owns(t, owner, request)
    ensures owner in t.routedTo
    ensures CancelFor(t, request) == [Forward(request, t.routedTo[owner], t.sessions[owner].held.value.backendKey)]
  {
    assert Registered(t, owner);
  }

  /**
   * A cancel request reaches the backend of the session that owns its key: the destination that
   * session was routed to, whatever the table says now, with the key that backend issued. It reaches
   * no backend exactly when its key is neither owned nor superseded.
   */
  lemma CancelReachesOwner(s: State, es: seq<Event>, t: State, id: Id, request: CancelKey)
    requires Init(s) && IsRun(s, es, t) && Enabled(t, Cancels(id, request, true))
    ensures forall owner :: Owns(t, owner, request) ==>
      && owner in t.routedTo
      && Apply(t, Cancels(id, request, true)).forwards
          == t.forwards + [Forward(request, t.routedTo[owner], t.sessions[owner].held.value.backendKey)]
    ensures Apply(t, Cancels(id, request, true)).forwards == t.forwards <==>
      request !in t.superseded && forall owner :: !Owns(t, owner, request)
  {
    RegistryIsExact(s, es, t, request);
    InitHolds(s);
    RunPreserves(s, es, t);
    forall owner | Owns(t, owner, request)
      ensures owner in t.routedTo && CancelFor(t, request)
        == [Forward(request, t.routedTo[owner], t.sessions[owner].held.value.backendKey)]
    {
      OwnedKeyLeadsHome(t, owner, request);
    }
    assert |t.forwards + CancelFor(t, request)| == |t.forwards| + |CancelFor(t, request)|;
  }

  /** Every cancellation ever sent on went where its session had been routed, with that backend's key. */
  lemma ForwardsAreTraceable(s: State, es: seq<Event>, t: State, f: Forward)
    requires Init(s) && IsRun(s, es, t) && f in t.forwards
    ensures exists id :: id in t.routedTo && t.routedTo[id] == f.dest && (id, f.backendKey) in t.keysSeen
  {
    InitHolds(s);
    RunPreserves(s, es, t);
    assert Traceable(t, f.dest, f.backendKey);
  }

  lemma {:induction false} RoutedDestinationIsFixed(s: State, es: seq<Event>, t: State, id: Id)
    requires Inv(s) && IsRun(s, es, t) && id in s.routedTo
    ensures id in t.routedTo && t.routedTo[id] == s.routedTo[id]
    decreases |es|
  {
    if es != [] {
      CountedPreserved(s, es[0]);
      KeyedPreserved(s, es[0]);
      assert RoutedOnce(s, id);
      RoutedDestinationIsFixed(Apply(s, es[0]), es[1..], t, id);
    }
  }

  /**
   * Lookup to cancel, end to end: however often the table is replaced in between, a cancel of a
   * session's key goes to the backend the table named when that session looked its database up.
   */
  lemma CancelFollowsTheLookup(s: State, es: seq<Event>, looked: State, id: Id, database: Str,
                               fs: seq<Event>, t: State, caller: Id, request: CancelKey)
    requires Init(s) && IsRun(s, es, looked) && Enabled(looked, Routes(id, database))
    requires IsRun(Apply(looked, Routes(id, database)), fs, t)
    requires Owns(t, id, request) && Enabled(t, Cancels(caller, request, true))
    ensures Apply(t, Cancels(caller, request, true)).forwards == t.forwards
      + [Forward(request, DestinationOf(looked.table[database]), t.sessions[id].held.value.backendKey)]
  {
    InitHolds(s);
    RunPreserves(s, es, looked);
    var routed := Apply(looked, Routes(id, database));
    CountedPreserved(looked, Routes(id, database));
    KeyedPreserved(looked, Routes(id, database));
    RunPreserves(routed, fs, t);
    RoutedDestinationIsFixed(routed, fs, t, id);
    OwnedKeyLeadsHome(t, id, request);
  }

  // ---- Draining can always complete ----

  /** The step that takes a session further out of serve, whatever its peers do. */
  function NextStep(p: Phase, id: Id): Event {
    match p
    case Accepted => Tracks(id)
    case Tracked => AcquiresSlot(id)
    case Admitted => EndsUnrouted(id)
    case Relaying(_, _, _) => EndsRelay(id)
    case Handled => ReleasesSlot(id)
    case Leaving => Untracks(id)
    case Untracked => Finishes(id)
  }

  function StepsLeft(p: Phase): nat {
    match p
    case Accepted => 6
    case Tracked => 5
    case Admitted => 4
    case Relaying(_, _, _) => 4
    case Handled => 3
    case Leaving => 2
    case Untracked => 1
  }

  lemma HolderHasSlot(s: State, id: Id)
    requires Counted(s) && id in s.sessions && HoldsSlot(s.sessions[id])
    ensures s.max > 0 ==> s.slots > 0
  {
    assert id in Holders(s.sessions);
  }

  predicate Advances(s: State, t: State, id: Id) {
    t.server == s.server && id in s.sessions &&
    if s.sessions[id].Untracked? then t.sessions == s.sessions - {id}
    else t.sessions.Keys == s.sessions.Keys && StepsLeft(t.sessions[id]) < StepsLeft(s.sessions[id])
  }

  lemma MoveAdvances(s: State, t: State, id: Id, p: Phase)
    requires id in s.sessions && !s.sessions[id].Untracked? && StepsLeft(p) < StepsLeft(s.sessions[id])
    requires t.server == s.server && t.sessions == s.sessions[id := p]
    ensures Advances(s, t, id)
  {}

  lemma EarlyStepAdvances(s: State, id: Id)
    requires id in s.sessions && (s.sessions[id].Accepted? || s.sessions[id].Tracked? || s.sessions[id].Admitted?)
    ensures Enabled(s, NextStep(s.sessions[id], id)) && Advances(s, Apply(s, NextStep(s.sessions[id], id)), id)
  {
    match s.sessions[id]
    case Accepted => MoveAdvances(s, Apply(s, Tracks(id)), id, Tracked);
    case Tracked => MoveAdvances(s, Acquire(s, id), id, if Grants(s) then Admitted else Leaving);
    case Admitted => MoveAdvances(s, To(s, id, Handled), id, Handled);
  }

  lemma NextStepAdvances(s: State, id: Id)
    requires Inv(s) && id in s.sessions
    ensures Enabled(s, NextStep(s.sessions[id], id)) && Advances(s, Apply(s, NextStep(s.sessions[id], id)), id)
  {
    match s.sessions[id]
    case Relaying(_, _, _) => MoveAdvances(s, End(s, id), id, Handled);
    case Handled => HolderHasSlot(s, id); MoveAdvances(s, Apply(s, ReleasesSlot(id)), id, Leaving);
    case Leaving => MoveAdvances(s, Apply(s, Untracks(id)), id, Untracked);
    case Untracked =>
    case _ => EarlyStepAdvances(s, id);
  }

  ghost predicate CanReturn(s: State) { exists es, t :: IsRun(s, es, t) && t.server.Returned? }

  lemma CanReturnAfter(s: State, e: Event)
    requires Enabled(s, e) && CanReturn(Apply(s, e))
    ensures CanReturn(s)
  {
    var es, t :| IsRun(Apply(s, e), es, t) && t.server.Returned?;
    StepThenRun(s, e, es, t);
  }

  lemma {:induction false} DrainFrom(s: State, id: Id)
    requires Inv(s) && s.server.Draining? && (s.sessions == map[] || id in s.sessions)
    ensures CanReturn(s)
    decreases |s.sessions|, if id in s.sessions then StepsLeft(s.sessions[id]) else 0
  {
    if s.sessions == map[] {
      var t := Apply(s, StartReturns);
      assert IsRun(t, [], t);
      CanReturnAfter(s, StartReturns);
    } else {
      var e := NextStep(s.sessions[id], id);
      NextStepAdvances(s, id);
      var t := Apply(s, e);
      CountedPreserved(s, e);
      KeyedPreserved(s, e);
      Shrinks(s.sessions, t.sessions, id);
      if id in t.sessions || t.sessions == map[] {
        DrainFrom(t, id);
      } else {
        var other :| other in t.sessions;
        DrainFrom(t, other);
      }
      CanReturnAfter(s, e);
    }
  }

  lemma Shrinks(before: map<Id, Phase>, after: map<Id, Phase>, id: Id)
    requires id in before && (after.Keys == before.Keys || after == before - {id})
    ensures |after| == if after.Keys == before.Keys then |before| else |before| - 1
  {
    assert |before| == |before.Keys| && |after| == |after.Keys|;
    if after.Keys != before.Keys { assert after.Keys == before.Keys - {id}; }
  }

  /** No session can block another: from every drain a run reaches, some run lets Start return. */
  lemma DrainCanComplete(s: State, es: seq<Event>, t: State)
    requires Init(s) && IsRun(s, es, t) && t.server.Draining?
    ensures CanReturn(t)
  {
    InitHolds(s);
    RunPreserves(s, es, t);
    if t.sessions == map[] {
      DrainFrom(t, 0);
    } else {
      var id :| id in t.sessions;
      DrainFrom(t, id);
    }
  }

  // ---- Runs, put together ----

  lemma StepThenRun(s: State, e: Event, es: seq<Event>, t: State)
    requires Enabled(s, e) && IsRun(Apply(s, e), es, t)
    ensures IsRun(s, [e] + es, t)
  {
    assert ([e] + es)[1..] == es;
  }

  lemma {:induction false} RunThenRun(s: State, es: seq<Event>, m: State, fs: seq<Event>, t: State)
    requires IsRun(s, es, m) && IsRun(m, fs, t)
    ensures IsRun(s, es + fs, t)
    decreases |es|
  {
    if es == [] {
      assert es + fs == fs;
    } else {
      RunThenRun(Apply(s, es[0]), es[1..], m, fs, t);
      StepThenRun(s, es[0], es[1..] + fs, t);
      assert es + fs == [es[0]] + (es[1..] + fs);
    }
  }

  lemma RunThenStep(s: State, es: seq<Event>, m: State, e: Event)
    requires IsRun(s, es, m) && Enabled(m, e)
    ensures IsRun(s, es + [e], Apply(m, e))
  {
    assert IsRun(Apply(m, e), [], Apply(m, e));
    StepThenRun(m, e, [], Apply(m, e));
    assert [e] + [] == [e];
    RunThenRun(s, es, m, [e], Apply(m, e));
  }

  // ---- What one relay does to the registry ----

  /** The events of a session whose backend sends these keys, answered with these issued ones. */
  function KeyEvents(id: Id, backend: seq<CancelKey>, issued: seq<CancelKey>): seq<Event>
    requires |issued| == |backend|
  {
    if issued == [] then []
    else
      var n := |issued| - 1;
      KeyEvents(id, backend[..n], issued[..n]) + [ReceivesKey(id, backend[n], issued[n])]
  }

  function LastHeld(backend: seq<CancelKey>, issued: seq<CancelKey>): Option<Held>
    requires |issued| == |backend|
  {
    if issued == [] then None else Some(Held(issued[|issued| - 1], backend[|issued| - 1]))
  }

  function KeySet(keys: seq<CancelKey>): set<CancelKey> { set k | k in keys }

  /** The state after those events: the keys recorded, all but the last superseded. */
  predicate KeysReceived(s: State, t: State, id: Id, dest: Destination, backend: seq<CancelKey>, issued: seq<CancelKey>)
    requires |issued| == |backend|
  {
    && t.sessions == s.sessions[id := Relaying(dest, false, LastHeld(backend, issued))]
    && t.entries == Recorded(s.entries, issued, backend, dest)
    && t.superseded == s.superseded + KeySet(Superseded(issued))
    && t.secondKeys == (s.secondKeys || |issued| > 1)
    && SameServer(s, t) && t.slots == s.slots && t.active == s.active && t.forwards == s.forwards
  }

  predicate SameServer(s: State, t: State) {
    t.server == s.server && t.max == s.max && t.table == s.table && t.nextId == s.nextId
  }

  lemma {:induction false} KeysAreRecorded(s: State, id: Id, dest: Destination, backend: seq<CancelKey>,
      issued: seq<CancelKey>)
    returns (t: State)
    requires In(s, id, Relaying(dest, false, None)) && |issued| == |backend| && AllFresh(issued, s.entries)
    ensures IsRun(s, KeyEvents(id, backend, issued), t) && KeysReceived(s, t, id, dest, backend, issued)
    decreases |issued|
  {
    if issued == [] {
      t := s;
      assert s.sessions == s.sessions[id := Relaying(dest, false, None)];
    } else {
      var n := |issued| - 1;
      var m := KeysAreRecorded(s, id, dest, backend[..n], issued[..n]);
      NextIsFresh(s.entries, issued, backend, dest);
      t := NextKeyIsRecorded(s, m, id, dest, backend, issued);
      RunThenStep(s, KeyEvents(id, backend[..n], issued[..n]), m, ReceivesKey(id, backend[n], issued[n]));
    }
  }

  lemma NextKeyIsRecorded(s: State, m: State, id: Id, dest: Destination, backend: seq<CancelKey>,
      issued: seq<CancelKey>)
    returns (t: State)
    requires 0 < |issued| == |backend| && issued[|issued| - 1].pid >= 0 && issued[|issued| - 1] !in m.entries
    requires KeysReceived(s, m, id, dest, backend[..|issued| - 1], issued[..|issued| - 1])
    ensures var n := |issued| - 1;
      Enabled(m, ReceivesKey(id, backend[n], issued[n])) && t == Apply(m, ReceivesKey(id, backend[n], issued[n]))
    ensures KeysReceived(s, t, id, dest, backend, issued)
  {
    var n := |issued| - 1;
    t := Receive(m, id, backend[n], issued[n]);
    RecordsNext(s.entries, issued, backend, dest);
    SupersedesNext(s.superseded, issued);
  }

  lemma NextIsFresh(entries: map<CancelKey, Entry>, issued: seq<CancelKey>, backend: seq<CancelKey>, dest: Destination)
    requires 0 < |issued| == |backend| && AllFresh(issued, entries)
    ensures var n := |issued| - 1;
      AllFresh(issued[..n], entries) && issued[n].pid >= 0
      && issued[n] !in Recorded(entries, issued[..n], backend[..n], dest)
  {
    var n := |issued| - 1;
    RecordedKeys(entries, issued[..n], backend[..n], dest);
  }

  lemma RecordsNext(entries: map<CancelKey, Entry>, issued: seq<CancelKey>, backend: seq<CancelKey>, dest: Destination)
    requires 0 < |issued| == |backend|
    ensures var n := |issued| - 1;
      Recorded(entries, issued, backend, dest)
        == Recorded(entries, issued[..n], backend[..n], dest)[issued[n] := Entry(dest.addr, backend[n], dest.tls)]
  {
    var n := |issued| - 1;
    RecordedPrefix(entries, issued[..n], backend[..n], backend, dest);
  }

  lemma SupersedesNext(before: set<CancelKey>, issued: seq<CancelKey>)
    requires issued != []
    ensures var n := |issued| - 1;
      before + KeySet(Superseded(issued))
        == before + KeySet(Superseded(issued[..n])) + (if n > 0 then {issued[n - 1]} else {})
  {
    var n := |issued| - 1;
    if n > 0 {
      assert Superseded(issued) == Superseded(issued[..n]) + [issued[n - 1]];
      assert KeySet(Superseded(issued)) == KeySet(Superseded(issued[..n])) + {issued[n - 1]};
    }
  }

  /**
   * The contract of the relay is the effect of its session's events: with the keys received and the
   * relay ended, the registry is what relayFromBackend leaves, the superseded keys and no other.
   */
  lemma RelayIsItsEvents(s: State, id: Id, dest: Destination, backend: seq<CancelKey>, issued: seq<CancelKey>)
    returns (t: State)
    requires In(s, id, Relaying(dest, false, None)) && |issued| == |backend| && AllFresh(issued, s.entries)
    ensures IsRun(s, KeyEvents(id, backend, issued) + [EndsRelay(id)], t)
    ensures t.entries == Recorded(s.entries, Superseded(issued), backend, dest)
    ensures t.superseded == s.superseded + KeySet(Superseded(issued)) && t.sessions == s.sessions[id := Handled]
    ensures SameServer(s, t) && t.slots == s.slots && t.active == s.active && t.forwards == s.forwards
  {
    var m := KeysAreRecorded(s, id, dest, backend, issued);
    t := End(m, id);
    RunThenStep(s, KeyEvents(id, backend, issued), m, EndsRelay(id));
    if issued != [] { ReleaseLast(s.entries, issued, backend, dest); }
  }

  // ---- A second key leaks ----

  /** A server that has just started, with this limit and table. */
  function Started(max: nat, table: map<Str, Route>): State {
    State(Serving, max, table, map[], 0, 0, {}, map[], {}, false, map[], {}, [])
  }

  function ArrivalEvents(database: Str): seq<Event> {
    [Accepts] + ([Tracks(0)] + ([AcquiresSlot(0)] + [Routes(0, database)]))
  }

  /** The first client is admitted and routed, whatever the limit. */
  lemma FirstClientIsRouted(max: nat, table: map<Str, Route>, database: Str) returns (t: State)
    requires database in table
    ensures Init(Started(max, table)) && IsRun(Started(max, table), ArrivalEvents(database), t)
    ensures t.sessions == map[0 := Relaying(DestinationOf(table[database]), false, None)] && t.entries == map[]
    ensures t.server.Serving?
  {
    var s1 := Apply(Started(max, table), Accepts);
    var s2 := Apply(s1, Tracks(0));
    var s3 := Apply(s2, AcquiresSlot(0));
    t := ThirdStep(s3, database);
    StepThenRun(s2, AcquiresSlot(0), [Routes(0, database)], t);
    StepThenRun(s1, Tracks(0), [AcquiresSlot(0)] + [Routes(0, database)], t);
    StepThenRun(Started(max, table), Accepts, [Tracks(0)] + ([AcquiresSlot(0)] + [Routes(0, database)]), t);
  }

  lemma ThirdStep(s: State, database: Str) returns (t: State)
    requires s.sessions == map[0 := Admitted] && database in s.table
    ensures IsRun(s, [Routes(0, database)], t)
    ensures t.sessions == map[0 := Relaying(DestinationOf(s.table[database]), false, None)]
    ensures t.entries == s.entries && t.server == s.server
  {
    t := StartRelay(s, 0, DestinationOf(s.table[database]));
    assert IsRun(t, [], t);
    StepThenRun(s, Routes(0, database), [], t);
    assert [Routes(0, database)] + [] == [Routes(0, database)];
  }

  function DepartureEvents(): seq<Event> {
    [ReleasesSlot(0)] + ([Untracks(0)] + ([Finishes(0)] + ([StopsAccepting] + [StartReturns])))
  }

  /** The only session leaves, the listener closes, and Start returns; no key is touched. */
  lemma LastClientLeaves(s: State) returns (t: State)
    requires Inv(s) && s.sessions == map[0 := Handled] && s.server.Serving?
    ensures IsRun(s, DepartureEvents(), t) && t.server.Returned? && t.entries == s.entries
  {
    HolderHasSlot(s, 0);
    var s1 := Apply(s, ReleasesSlot(0));
    assert s1.sessions == map[0 := Leaving];
    t := Unwinds(s1);
    StepThenRun(s, ReleasesSlot(0), [Untracks(0)] + ([Finishes(0)] + ([StopsAccepting] + [StartReturns])), t);
  }

  lemma Unwinds(s: State) returns (t: State)
    requires s.sessions == map[0 := Leaving] && s.server.Serving?
    ensures IsRun(s, [Untracks(0)] + ([Finishes(0)] + ([StopsAccepting] + [StartReturns])), t)
    ensures t.server.Returned? && t.entries == s.entries
  {
    var s1 := Apply(s, Untracks(0));
    assert s1.sessions == map[0 := Untracked];
    var s2 := Apply(s1, Finishes(0));
    assert s2.sessions == map[];
    t := Returns(s2);
    StepThenRun(s1, Finishes(0), [StopsAccepting] + [StartReturns], t);
    StepThenRun(s, Untracks(0), [Finishes(0)] + ([StopsAccepting] + [StartReturns]), t);
  }

  lemma Returns(s: State) returns (t: State)
    requires s.sessions == map[] && s.server.Serving?
    ensures IsRun(s, [StopsAccepting] + [StartReturns], t) && t.server.Returned? && t.entries == s.entries
  {
    var s1 := Apply(s, StopsAccepting);
    t := Apply(s1, StartReturns);
    assert IsRun(t, [], t);
    StepThenRun(s1, StartReturns, [], t);
    assert [StartReturns] + [] == [StartReturns];
    StepThenRun(s, StopsAccepting, [StartReturns], t);
  }

  function LoneSession(database: Str, backend: seq<CancelKey>, issued: seq<CancelKey>): seq<Event>
    requires |issued| == |backend|
  {
    ArrivalEvents(database) + (KeyEvents(0, backend, issued) + [EndsRelay(0)]) + DepartureEvents()
  }

  /** From start to return with one client: what its backend's keys leave behind in the registry. */
  lemma LoneSessionLeaves(max: nat, table: map<Str, Route>, database: Str, backend: seq<CancelKey>,
      issued: seq<CancelKey>)
    returns (t: State)
    requires database in table && |issued| == |backend| && AllFresh(issued, map[])
    ensures Init(Started(max, table)) && IsRun(Started(max, table), LoneSession(database, backend, issued), t)
    ensures t.server.Returned? && t.entries.Keys == KeySet(Superseded(issued))
  {
    var s := Started(max, table);
    var arrival, relay := ArrivalEvents(database), KeyEvents(0, backend, issued) + [EndsRelay(0)];
    var routed := FirstClientIsRouted(max, table, database);
    var ended := RelayIsItsEvents(routed, 0, DestinationOf(table[database]), backend, issued);
    RunThenRun(s, arrival, routed, relay, ended);
    InitHolds(s);
    RunPreserves(s, arrival + relay, ended);
    assert ended.sessions == map[0 := Handled];
    t := LastClientLeaves(ended);
    RunThenRun(s, arrival + relay, ended, DepartureEvents(), t);
    RecordedKeys(map[], Superseded(issued), backend, DestinationOf(table[database]));
  }

  /** A backend that sends two keys before ReadyForQuery leaves the first registered when Start has returned. */
  lemma SecondKeyLeaks(max: nat, table: map<Str, Route>, database: Str,
                       b1: CancelKey, k1: CancelKey, b2: CancelKey, k2: CancelKey) returns (t: State)
    requires database in table && k1 != k2 && k1.pid >= 0 && k2.pid >= 0
    ensures Init(Started(max, table)) && IsRun(Started(max, table), LoneSession(database, [b1, b2], [k1, k2]), t)
    ensures t.server.Returned? && t.entries.Keys == {k1}
  {
    t := LoneSessionLeaves(max, table, database, [b1, b2], [k1, k2]);
    assert Superseded([k1, k2]) == [k1];
  }
}
