/** Conflict resolution: from a set of routes to a lookup table plus the reasoning for each route. */
module Registry {
  import opened Bytes
  import opened Api
  import opened Resolver

  datatype TLSConfig = TLSConfig(mode: TLSMode, rootCAs: Option<Pool>, serverName: Str) {
    predicate Enabled() { mode != UnsetMode && mode != Disable }
  }

  datatype Route = Route(
    source: NamespacedName, database: Str, targetDatabase: Str, host: Str, port: int32, tls: TLSConfig)
  {
    function Address(): (a: Str)
      ensures a != []
    {
      JoinHostPort(host, Itoa(port))
    }
  }

  /** net.JoinHostPort: a host holding a colon is bracketed. */
  function JoinHostPort(host: Str, port: Str): (r: Str)
    ensures r != []
  {
    if COLON in host then Ascii("[") + host + Ascii("]:") + port
    else var r := host + Ascii(":") + port; assert |r| > 0; r
  }

  const COLON: byte := 58
  const OPENING: byte := 91
  const CLOSING: byte := 93

  predicate NoBrackets(s: Str) { OPENING !in s && CLOSING !in s }

  /** How net.Dial takes an address apart: at its last colon, and inside brackets if it starts with one. */
  predicate SplitsInto(address: Str, host: Str, port: Str) {
    && COLON !in port && NoBrackets(port) && NoBrackets(host)
    && ((COLON !in host && address == host + [COLON] + port) || address == [OPENING] + host + [CLOSING, COLON] + port)
  }

  lemma SplitIsUnique(address: Str, h: Str, p: Str, h': Str, p': Str)
    requires SplitsInto(address, h, p) && SplitsInto(address, h', p')
    ensures h == h' && p == p'
  {
    NoLonger(address, p, p');
    NoLonger(address, p', p);
    assert p == address[|address| - |p|..] == p';
    var front := address[..|address| - |p| - 1];
    assert front == h || front == [OPENING] + h + [CLOSING];
    assert front == h' || front == [OPENING] + h' + [CLOSING];
    assert [OPENING] + h + [CLOSING] == [OPENING] + h' + [CLOSING] ==> h == h' by {
      assert ([OPENING] + h + [CLOSING])[1..|h| + 1] == h && ([OPENING] + h' + [CLOSING])[1..|h'| + 1] == h';
    }
  }

  lemma NoLonger(address: Str, p: Str, p': Str)
    requires |p| < |address| && address[|address| - |p| - 1] == COLON
    requires |p'| < |address| && address[|address| - |p'|..] == p' && COLON !in p'
    ensures |p'| <= |p|
  {
    assert forall i :: |address| - |p'| <= i < |address| ==> address[i] == p'[i - (|address| - |p'|)];
  }

  /** The address of a route is dialled as its host and port, exactly unless the host has brackets of its own. */
  lemma AddressIsDialledBack(r: Route)
    ensures SplitsInto(r.Address(), r.host, Itoa(r.port)) <==> NoBrackets(r.host)
    ensures forall h, p :: NoBrackets(r.host) && SplitsInto(r.Address(), h, p) ==> h == r.host && p == Itoa(r.port)
  {
    NumeralIsPlain(r.port);
    assert Ascii("[") == [OPENING] && Ascii("]:") == [CLOSING, COLON] && Ascii(":") == [COLON];
    forall h, p | NoBrackets(r.host) && SplitsInto(r.Address(), h, p) ensures h == r.host && p == Itoa(r.port) {
      SplitIsUnique(r.Address(), h, p, r.host, Itoa(r.port));
    }
  }

  lemma NumeralIsPlain(n: int)
    ensures COLON !in Itoa(n) && NoBrackets(Itoa(n))
  {
    assert Ascii("-") == [45];
    forall b | b in Itoa(n) ensures b == 45 || IsDigit(b) {
      var digits := Decimal(if n < 0 then -n else n);
      assert b in digits || b == 45;
    }
  }

  datatype Decision = Decision(
    database: Str, accepted: bool, conflictsWith: NamespacedName, endpoint: Str, resolveErr: Option<ResolveError>)
  {
    predicate Programmed() { accepted && resolveErr.None? }
  }

  datatype Snapshot = Snapshot(table: map<Str, Route>, decisions: map<NamespacedName, Decision>)
  const EMPTY_SNAPSHOT := Snapshot(map[], map[])

  // ---- Resolving one route ----

  /** The Service a route names, with the namespace default applied. */
  function ServiceOf(r: PostgresRoute): Option<NamespacedName> {
    if r.spec.backend.kind == ServiceType && r.spec.backend.service.Some? then
      var b := r.spec.backend.service.value;
      Some(NamespacedName(if b.namespace == [] then r.namespace else b.namespace, b.name))
    else None
  }

  /** The Secret holding the CA bundle, when the TLS mode needs one. */
  function CASecretOf(r: PostgresRoute): Option<NamespacedName> {
    match r.spec.tls
    case None => None
    case Some(t) =>
      if (t.mode == VerifyCA || t.mode == VerifyFull) && t.caSecretRef.Some?
      then Some(NamespacedName(r.namespace, t.caSecretRef.value.name)) else None
  }

  /** The key of the CA bundle within its Secret. */
  function CAKeyOf(r: PostgresRoute): Str
    requires CASecretOf(r).Some?
  {
    var key := r.spec.tls.value.caSecretRef.value.key;
    if key == [] then Ascii("ca.crt") else key
  }

  /** The host and port of a route's backend. */
  function ResolveBackend(r: PostgresRoute, c: Cluster): Result<(Str, int32), ResolveError> {
    match r.spec.backend.kind
    case ServiceType =>
      (match r.spec.backend.service
       case None => Err(ResolveError({InvalidBackend}, BackendUnset(ServiceType)))
       case Some(b) =>
         var namespace := if b.namespace == [] then r.namespace else b.namespace;
         match ResolveServicePort(c, namespace, b.name, b.port)
         case Err(e) => Err(e)
         case Ok(port) => Ok((b.name + Ascii(".") + namespace + Ascii(".svc.") + c.domain, port)))
    case AddressType =>
      (match r.spec.backend.address
       case None => Err(ResolveError({InvalidBackend}, BackendUnset(AddressType)))
       case Some(b) => Ok((b.host, if b.port == 0 then 5432 else b.port)))
    case UnknownType(name) => Err(ResolveError({InvalidBackend}, UnsupportedBackendType(name)))
  }

  /** The backend TLS policy of a route. */
  function ResolveTLS(r: PostgresRoute, c: Cluster): Result<TLSConfig, ResolveError> {
    match r.spec.tls
    case None => Ok(TLSConfig(Disable, None, []))
    case Some(t) =>
      if t.mode == UnsetMode || t.mode == Disable then Ok(TLSConfig(Disable, None, []))
      else if (t.mode != VerifyCA && t.mode != VerifyFull) || t.caSecretRef.None? then
        Ok(TLSConfig(t.mode, None, t.serverName))
      else
        var ref := t.caSecretRef.value;
        match LoadCABundle(c, r.namespace, ref.name, if ref.key == [] then Ascii("ca.crt") else ref.key)
        case Err(e) => Err(ResolveError(e.classes + {CABundle}, CABundleUnavailable(e.text)))
        case Ok(pool) => Ok(TLSConfig(t.mode, Some(pool), t.serverName))
  }

  function Assemble(r: PostgresRoute, backend: (Str, int32), tls: TLSConfig): Route {
    Route(r.Key(), r.EffectiveDatabase(), r.EffectiveTargetDatabase(), backend.0, backend.1, tls)
  }

  function Resolve(r: PostgresRoute, c: Cluster): Result<Route, ResolveError> {
    match ResolveBackend(r, c)
    case Err(e) => Err(e)
    case Ok(backend) =>
      match ResolveTLS(r, c)
      case Err(e) => Err(e)
      case Ok(tls) => Ok(Assemble(r, backend, tls))
  }

  /** A resolver, as Build sees it: one answer per route for the length of a build. */
  type Answers = PostgresRoute -> Result<Route, ResolveError>

  function AnswersFrom(c: Cluster): Answers { r => Resolve(r, c) }

  // ---- The order that settles a name conflict ----

  predicate Less(a: PostgresRoute, b: PostgresRoute) {
    if a.spec.priority != b.spec.priority then a.spec.priority > b.spec.priority
    else if a.created != b.created then a.created < b.created
    else if a.namespace != b.namespace then LexLess(a.namespace, b.namespace)
    else LexLess(a.name, b.name)
  }

  /** Less is a strict order, total on routes with different keys. */
  lemma LessIsTotal(a: PostgresRoute, b: PostgresRoute)
    ensures !Less(a, a)
    ensures !(Less(a, b) && Less(b, a))
    ensures a.Key() != b.Key() ==> Less(a, b) || Less(b, a)
  {
    LexTrichotomy(a.namespace, b.namespace);
    LexTrichotomy(a.name, b.name);
  }

  lemma LessIsTransitive(a: PostgresRoute, b: PostgresRoute, c: PostgresRoute)
    requires Less(a, b) && Less(b, c)
    ensures Less(a, c)
  {
    if LexLess(a.namespace, b.namespace) && LexLess(b.namespace, c.namespace) {
      LexTransitive(a.namespace, b.namespace, c.namespace);
      LexTrichotomy(a.namespace, c.namespace);
    }
    if LexLess(a.name, b.name) && LexLess(b.name, c.name) {
      LexTransitive(a.name, b.name, c.name);
    }
  }

  // ---- Specification: the least claimant wins ----

  ghost predicate UniqueKeys(routes: set<PostgresRoute>) {
    forall a, b :: a in routes && b in routes && a.Key() == b.Key() ==> a == b
  }

  ghost predicate IsWinner(routes: set<PostgresRoute>, w: PostgresRoute) {
    && w in routes
    && forall q :: q in routes && q != w && q.EffectiveDatabase() == w.EffectiveDatabase() ==> Less(w, q)
  }

  function AcceptedDecision(r: PostgresRoute, resolved: Result<Route, ResolveError>): Decision {
    match resolved
    case Ok(route) => Decision(r.EffectiveDatabase(), true, NO_NAME, route.Address(), None)
    case Err(e) => Decision(r.EffectiveDatabase(), true, NO_NAME, [], Some(e))
  }

  function RejectedDecision(r: PostgresRoute, winner: NamespacedName): Decision {
    Decision(r.EffectiveDatabase(), false, winner, [], None)
  }

  ghost predicate Beats(routes: set<PostgresRoute>, w: PostgresRoute, r: PostgresRoute) {
    IsWinner(routes, w) && w.EffectiveDatabase() == r.EffectiveDatabase()
  }

  ghost predicate DecidesRoute(routes: set<PostgresRoute>, rv: Answers, r: PostgresRoute, d: Decision) {
    if IsWinner(routes, r) then d == AcceptedDecision(r, rv(r))
    else exists w :: Beats(routes, w, r) && d == RejectedDecision(r, w.Key())
  }

  ghost predicate Serves(routes: set<PostgresRoute>, rv: Answers, w: PostgresRoute, database: Str, route: Route) {
    && IsWinner(routes, w) && w.EffectiveDatabase() == database
    && rv(w) == Ok(route)
  }

  ghost function Keys(routes: set<PostgresRoute>): set<NamespacedName> { set r | r in routes :: r.Key() }

  ghost predicate DecidesAll(routes: set<PostgresRoute>, rv: Answers, decisions: map<NamespacedName, Decision>) {
    && decisions.Keys == Keys(routes)
    && forall r :: r in routes ==> DecidesRoute(routes, rv, r, decisions[r.Key()])
  }

  ghost predicate ServesAll(routes: set<PostgresRoute>, rv: Answers, table: map<Str, Route>) {
    && (forall d :: d in table ==> exists w :: Serves(routes, rv, w, d, table[d]))
    && (forall w :: IsWinner(routes, w) && rv(w).Ok? ==> w.EffectiveDatabase() in table)
  }

  /** What a snapshot of a route set must say, without reference to any order of processing. */
  ghost predicate MeetsSpec(routes: set<PostgresRoute>, rv: Answers, s: Snapshot) {
    DecidesAll(routes, rv, s.decisions) && ServesAll(routes, rv, s.table)
  }

  lemma WinnerIsUnique(routes: set<PostgresRoute>, v: PostgresRoute, w: PostgresRoute)
    requires IsWinner(routes, v) && IsWinner(routes, w) && v.EffectiveDatabase() == w.EffectiveDatabase()
    ensures v == w
  {
    LessIsTotal(v, w);
  }

  /** Older, or of the same age and first by namespace and then by name. */
  ghost predicate Earlier(w: PostgresRoute, q: PostgresRoute) {
    || w.created < q.created
    || (w.created == q.created && Precedes(w.namespace, q.namespace))
    || (w.created == q.created && w.namespace == q.namespace && Precedes(w.name, q.name))
  }

  /** The documented rule: higher priority or, at equal priority, earlier. */
  ghost predicate ComesFirst(w: PostgresRoute, q: PostgresRoute) {
    w.spec.priority > q.spec.priority || (w.spec.priority == q.spec.priority && Earlier(w, q))
  }

  lemma LessIsTheRule(w: PostgresRoute, q: PostgresRoute)
    ensures Less(w, q) <==> ComesFirst(w, q)
  {
    LexLessIsPrecedes(w.namespace, q.namespace);
    LexLessIsPrecedes(w.name, q.name);
    LexTrichotomy(w.namespace, w.namespace);
    if w.namespace == q.namespace { assert !Precedes(w.namespace, q.namespace); }
  }

  /** The name a route claims: the one in its spec, or else its own. */
  predicate Claims(r: PostgresRoute, d: Str) {
    d == if r.spec.database == [] then r.name else r.spec.database
  }

  /** The database a route asks its backend for: its target, else the name it claims. */
  function TargetOf(r: PostgresRoute): Str {
    if r.spec.targetDatabase != [] then r.spec.targetDatabase
    else if r.spec.database != [] then r.spec.database
    else r.name
  }

  /** The winner of a name, by the documented rule and the fields of the routes alone. */
  lemma WinnerByTheRule(routes: set<PostgresRoute>, w: PostgresRoute, d: Str)
    ensures IsWinner(routes, w) && w.EffectiveDatabase() == d <==>
      w in routes && Claims(w, d) && forall q :: q in routes && q != w && Claims(q, d) ==> ComesFirst(w, q)
  {
    forall q ensures Less(w, q) <==> ComesFirst(w, q) { LessIsTheRule(w, q); }
  }

  /** Every claimed name has a winner. */
  lemma {:induction false} WinnerExists(routes: set<PostgresRoute>, r: PostgresRoute) returns (w: PostgresRoute)
    requires UniqueKeys(routes) && r in routes
    ensures IsWinner(routes, w) && w.EffectiveDatabase() == r.EffectiveDatabase()
    ensures w == r || Less(w, r)
    decreases routes
  {
    if q :| q in routes && q != r && q.EffectiveDatabase() == r.EffectiveDatabase() && !Less(r, q) {
      LessIsTotal(r, q);
      w := WinnerExists(routes - {r}, q);
      if w != q { LessIsTransitive(w, q, r); }
    } else {
      w := r;
    }
  }

  /** The specification leaves no freedom: it determines the snapshot. */
  lemma SpecDeterminesSnapshot(routes: set<PostgresRoute>, rv: Answers, s: Snapshot, t: Snapshot)
    requires UniqueKeys(routes) && MeetsSpec(routes, rv, s) && MeetsSpec(routes, rv, t)
    ensures s == t
  {
    DecisionsAgree(routes, rv, s.decisions, t.decisions);
    TableIncluded(routes, rv, s.table, t.table);
    TableIncluded(routes, rv, t.table, s.table);
  }

  lemma DecisionIsDetermined(routes: set<PostgresRoute>, rv: Answers, r: PostgresRoute, d: Decision, e: Decision)
    requires DecidesRoute(routes, rv, r, d) && DecidesRoute(routes, rv, r, e)
    ensures d == e
  {
    if !IsWinner(routes, r) {
      var v :| Beats(routes, v, r) && d == RejectedDecision(r, v.Key());
      var w :| Beats(routes, w, r) && e == RejectedDecision(r, w.Key());
      WinnerIsUnique(routes, v, w);
    }
  }

  lemma DecisionsAgree(routes: set<PostgresRoute>, rv: Answers,
                       s: map<NamespacedName, Decision>, t: map<NamespacedName, Decision>)
    requires DecidesAll(routes, rv, s) && DecidesAll(routes, rv, t)
    ensures s == t
  {
    forall k | k in s ensures s[k] == t[k] {
      assert k in Keys(routes);
      var r :| r in routes && r.Key() == k;
      DecisionIsDetermined(routes, rv, r, s[k], t[k]);
    }
  }

  lemma TableIncluded(routes: set<PostgresRoute>, rv: Answers, s: map<Str, Route>, t: map<Str, Route>)
    requires ServesAll(routes, rv, s) && ServesAll(routes, rv, t)
    ensures forall d :: d in s ==> d in t && t[d] == s[d]
  {
    forall d | d in s ensures d in t && t[d] == s[d] {
      var w :| Serves(routes, rv, w, d, s[d]);
      var v :| Serves(routes, rv, v, d, t[d]);
      WinnerIsUnique(routes, v, w);
    }
  }

  // ---- Build ----

  ghost function Elements(routes: seq<PostgresRoute>): set<PostgresRoute> { set r | r in routes }

  ghost predicate DistinctKeys(routes: seq<PostgresRoute>) {
    forall i, j :: 0 <= i < j < |routes| ==> routes[i].Key() != routes[j].Key()
  }

  ghost predicate Sorted(routes: seq<PostgresRoute>) {
    forall i, j :: 0 <= i < j < |routes| ==> Less(routes[i], routes[j])
  }

  function Insert(r: PostgresRoute, sorted: seq<PostgresRoute>): seq<PostgresRoute> {
    if sorted == [] || Less(r, sorted[0]) then [r] + sorted
    else [sorted[0]] + Insert(r, sorted[1..])
  }

  /** Stands for sort.SliceStable; SortedIsUnique makes the choice of algorithm immaterial. */
  function SortRoutes(routes: seq<PostgresRoute>): seq<PostgresRoute> {
    if routes == [] then [] else Insert(routes[0], SortRoutes(routes[1..]))
  }

  lemma {:induction false} InsertIsSorted(r: PostgresRoute, sorted: seq<PostgresRoute>)
    requires Sorted(sorted) && forall q :: q in sorted ==> q.Key() != r.Key()
    ensures Sorted(Insert(r, sorted))
    ensures forall q :: q in Insert(r, sorted) <==> q == r || q in sorted
  {
    if sorted == [] {
    } else if Less(r, sorted[0]) {
      forall i | 1 <= i < |sorted| ensures Less(r, sorted[i]) { LessIsTransitive(r, sorted[0], sorted[i]); }
    } else {
      LessIsTotal(r, sorted[0]);
      InsertIsSorted(r, sorted[1..]);
      var tail := Insert(r, sorted[1..]);
      assert forall q :: q in sorted <==> q == sorted[0] || q in sorted[1..];
      forall j | 0 <= j < |tail| ensures Less(sorted[0], tail[j]) {
        if tail[j] != r {
          assert tail[j] in tail;
          var k :| 0 <= k < |sorted[1..]| && sorted[1..][k] == tail[j];
          assert sorted[k + 1] == tail[j];
        }
      }
    }
  }

  lemma {:induction false} SortIsSorted(routes: seq<PostgresRoute>)
    requires DistinctKeys(routes)
    ensures Sorted(SortRoutes(routes))
    ensures forall q :: q in SortRoutes(routes) <==> q in routes
  {
    if routes != [] {
      SortIsSorted(routes[1..]);
      forall q | q in routes[1..] ensures q.Key() != routes[0].Key() {
        var k :| 0 <= k < |routes[1..]| && routes[1..][k] == q;
        assert routes[k + 1] == q;
      }
      InsertIsSorted(routes[0], SortRoutes(routes[1..]));
      assert forall q :: q in routes <==> q == routes[0] || q in routes[1..];
    }
  }

  /** The winners so far, the table so far, the decisions so far. */
  datatype Progress = Progress(
    winners: map<Str, NamespacedName>, table: map<Str, Route>, decisions: map<NamespacedName, Decision>)
  const NO_PROGRESS := Progress(map[], map[], map[])

  function Reject(p: Progress, r: PostgresRoute): Progress
    requires r.EffectiveDatabase() in p.winners
  {
    p.(decisions := p.decisions[r.Key() := RejectedDecision(r, p.winners[r.EffectiveDatabase()])])
  }

  function Accept(p: Progress, r: PostgresRoute, resolved: Result<Route, ResolveError>): Progress {
    Progress(
      p.winners[r.EffectiveDatabase() := r.Key()],
      if resolved.Ok? then p.table[r.EffectiveDatabase() := resolved.value] else p.table,
      p.decisions[r.Key() := AcceptedDecision(r, resolved)])
  }

  function Place(p: Progress, r: PostgresRoute, rv: Answers): Progress {
    if r.EffectiveDatabase() in p.winners then Reject(p, r) else Accept(p, r, rv(r))
  }

  function PlaceAll(ordered: seq<PostgresRoute>, rv: Answers): Progress {
    if ordered == [] then NO_PROGRESS
    else Place(PlaceAll(ordered[..|ordered| - 1], rv), ordered[|ordered| - 1], rv)
  }

  function BuildSnapshot(routes: seq<PostgresRoute>, rv: Answers): Snapshot {
    var p := PlaceAll(SortRoutes(routes), rv);
    Snapshot(p.table, p.decisions)
  }

  /** A build asks about nothing but the routes it places. */
  lemma {:induction false} PlaceAgrees(ordered: seq<PostgresRoute>, rv: Answers, other: Answers)
    requires forall r :: r in ordered ==> rv(r) == other(r)
    ensures PlaceAll(ordered, rv) == PlaceAll(ordered, other)
  {
    if ordered != [] { PlaceAgrees(ordered[..|ordered| - 1], rv, other); }
  }

  method Build(routes: seq<PostgresRoute>, rv: Answers) returns (s: Snapshot)
    requires DistinctKeys(routes)
    ensures s == BuildSnapshot(routes, rv)
    ensures MeetsSpec(Elements(routes), rv, s)
  {
    var ordered := SortRoutes(routes);
    var winners: map<Str, NamespacedName>, table: map<Str, Route>, decisions: map<NamespacedName, Decision>
      := map[], map[], map[];
    for i := 0 to |ordered|
      invariant Progress(winners, table, decisions) == PlaceAll(ordered[..i], rv)
    {
      assert ordered[..i + 1][..i] == ordered[..i];
      var route := ordered[i];
      var key, database := route.Key(), route.EffectiveDatabase();
      if database in winners {
        decisions := decisions[key := Decision(database, false, winners[database], [], None)];
        continue;
      }
      winners := winners[database := key];
      var resolved := rv(route);
      if resolved.Err? {
        decisions := decisions[key := Decision(database, true, NO_NAME, [], Some(resolved.error))];
        continue;
      }
      table := table[database := resolved.value];
      decisions := decisions[key := Decision(database, true, NO_NAME, resolved.value.Address(), None)];
    }
    assert ordered[..|ordered|] == ordered;
    s := Snapshot(table, decisions);
    BuildMeetsSpec(routes, rv);
  }

  // ---- Build refines the specification ----

  ghost predicate WinnersOf(routes: set<PostgresRoute>, winners: map<Str, NamespacedName>) {
    && (forall d :: d in winners ==> Holds(routes, d, winners[d]))
    && (forall r :: r in routes ==> r.EffectiveDatabase() in winners)
  }

  ghost predicate Holds(routes: set<PostgresRoute>, d: Str, key: NamespacedName) {
    exists w :: IsWinner(routes, w) && w.EffectiveDatabase() == d && key == w.Key()
  }

  /** A route behind all others in the order disturbs no winner, and wins only an unclaimed name. */
  lemma AddLast(routes: set<PostgresRoute>, r: PostgresRoute)
    requires r !in routes && forall q :: q in routes ==> Less(q, r)
    ensures forall w :: w in routes ==> (IsWinner(routes + {r}, w) <==> IsWinner(routes, w))
    ensures IsWinner(routes + {r}, r) <==> forall q :: q in routes ==> q.EffectiveDatabase() != r.EffectiveDatabase()
  {
    forall q | q in routes ensures !Less(r, q) { LessIsTotal(q, r); }
  }

  lemma PlaceLast(routes: set<PostgresRoute>, r: PostgresRoute, rv: Answers, p: Progress)
    requires r !in routes && forall q :: q in routes ==> Less(q, r) && q.Key() != r.Key()
    requires WinnersOf(routes, p.winners) && DecidesAll(routes, rv, p.decisions) && ServesAll(routes, rv, p.table)
    ensures var p' := Place(p, r, rv);
      && WinnersOf(routes + {r}, p'.winners)
      && DecidesAll(routes + {r}, rv, p'.decisions)
      && ServesAll(routes + {r}, rv, p'.table)
  {
    PlaceLastWinners(routes, r, rv, p);
    PlaceLastDecisions(routes, r, rv, p);
    PlaceLastTable(routes, r, rv, p);
  }

  lemma PlaceLastDecision(routes: set<PostgresRoute>, r: PostgresRoute, rv: Answers, p: Progress)
    requires r !in routes && forall q :: q in routes ==> Less(q, r)
    requires WinnersOf(routes, p.winners)
    ensures DecidesRoute(routes + {r}, rv, r, Place(p, r, rv).decisions[r.Key()])
  {
    AddLast(routes, r);
    var d := r.EffectiveDatabase();
    if d in p.winners {
      var w :| IsWinner(routes, w) && w.EffectiveDatabase() == d && p.winners[d] == w.Key();
      assert Beats(routes + {r}, w, r);
    }
  }

  lemma PlaceLastWinners(routes: set<PostgresRoute>, r: PostgresRoute, rv: Answers, p: Progress)
    requires r !in routes && forall q :: q in routes ==> Less(q, r)
    requires WinnersOf(routes, p.winners)
    ensures WinnersOf(routes + {r}, Place(p, r, rv).winners)
  {
    var d := r.EffectiveDatabase();
    forall e | e in p.winners ensures Holds(routes + {r}, e, p.winners[e]) { StillHolds(routes, r, e, p.winners[e]); }
    if d !in p.winners {
      AddLast(routes, r);
      assert Holds(routes + {r}, d, r.Key());
    }
  }

  lemma StillHolds(routes: set<PostgresRoute>, r: PostgresRoute, d: Str, key: NamespacedName)
    requires r !in routes && forall q :: q in routes ==> Less(q, r)
    requires Holds(routes, d, key)
    ensures Holds(routes + {r}, d, key)
  {
    AddLast(routes, r);
    var w :| IsWinner(routes, w) && w.EffectiveDatabase() == d && key == w.Key();
    assert IsWinner(routes + {r}, w);
  }

  lemma PlaceLastDecisions(routes: set<PostgresRoute>, r: PostgresRoute, rv: Answers, p: Progress)
    requires r !in routes && forall q :: q in routes ==> Less(q, r) && q.Key() != r.Key()
    requires WinnersOf(routes, p.winners) && DecidesAll(routes, rv, p.decisions)
    ensures DecidesAll(routes + {r}, rv, Place(p, r, rv).decisions)
  {
    PlaceLastDecision(routes, r, rv, p);
    EarlierDecisions(routes, r, rv, p.decisions);
    ExtendDecisions(routes, r, rv, p.decisions, Place(p, r, rv).decisions[r.Key()]);
  }

  lemma ExtendDecisions(routes: set<PostgresRoute>, r: PostgresRoute, rv: Answers,
                        decisions: map<NamespacedName, Decision>, d: Decision)
    requires decisions.Keys == Keys(routes) && r.Key() !in Keys(routes)
    requires forall q :: q in routes ==> DecidesRoute(routes + {r}, rv, q, decisions[q.Key()])
    requires DecidesRoute(routes + {r}, rv, r, d)
    ensures DecidesAll(routes + {r}, rv, decisions[r.Key() := d])
  {
    KeysWith(routes, r);
    forall q | q in routes + {r} ensures DecidesRoute(routes + {r}, rv, q, decisions[r.Key() := d][q.Key()]) {
      if q in routes { assert q.Key() in Keys(routes); }
    }
  }

  lemma EarlierDecisions(routes: set<PostgresRoute>, r: PostgresRoute, rv: Answers,
                         decisions: map<NamespacedName, Decision>)
    requires r !in routes && forall q :: q in routes ==> Less(q, r)
    requires DecidesAll(routes, rv, decisions)
    ensures forall q :: q in routes ==> DecidesRoute(routes + {r}, rv, q, decisions[q.Key()])
  {
    forall q | q in routes ensures DecidesRoute(routes + {r}, rv, q, decisions[q.Key()]) {
      EarlierDecision(routes, r, rv, q, decisions[q.Key()]);
    }
  }

  lemma KeysWith(routes: set<PostgresRoute>, r: PostgresRoute)
    ensures Keys(routes + {r}) == Keys(routes) + {r.Key()}
  {
    assert r in routes + {r};
    forall q | q in routes ensures q.Key() in Keys(routes + {r}) { assert q in routes + {r}; }
  }

  lemma EarlierDecision(routes: set<PostgresRoute>, r: PostgresRoute, rv: Answers, q: PostgresRoute, d: Decision)
    requires r !in routes && forall q :: q in routes ==> Less(q, r)
    requires q in routes && DecidesRoute(routes, rv, q, d)
    ensures DecidesRoute(routes + {r}, rv, q, d)
  {
    AddLast(routes, r);
    if !IsWinner(routes, q) {
      var w :| Beats(routes, w, q) && d == RejectedDecision(q, w.Key());
      assert Beats(routes + {r}, w, q);
    }
  }

  lemma PlaceLastTable(routes: set<PostgresRoute>, r: PostgresRoute, rv: Answers, p: Progress)
    requires r !in routes && forall q :: q in routes ==> Less(q, r)
    requires WinnersOf(routes, p.winners) && ServesAll(routes, rv, p.table)
    ensures ServesAll(routes + {r}, rv, Place(p, r, rv).table)
  {
    var t := Place(p, r, rv).table;
    forall e | e in t ensures exists w :: Serves(routes + {r}, rv, w, e, t[e]) { PlaceLastEntry(routes, r, rv, p, e); }
    forall w | IsWinner(routes + {r}, w) && rv(w).Ok? ensures w.EffectiveDatabase() in t {
      PlaceLastServes(routes, r, rv, p, w);
    }
  }

  lemma PlaceLastServes(routes: set<PostgresRoute>, r: PostgresRoute, rv: Answers, p: Progress, w: PostgresRoute)
    requires r !in routes && forall q :: q in routes ==> Less(q, r)
    requires WinnersOf(routes, p.winners) && ServesAll(routes, rv, p.table)
    requires IsWinner(routes + {r}, w) && rv(w).Ok?
    ensures w.EffectiveDatabase() in Place(p, r, rv).table
  {
    AddLast(routes, r);
  }

  lemma PlaceLastEntry(routes: set<PostgresRoute>, r: PostgresRoute, rv: Answers, p: Progress, e: Str)
    requires r !in routes && forall q :: q in routes ==> Less(q, r)
    requires WinnersOf(routes, p.winners) && ServesAll(routes, rv, p.table) && e in Place(p, r, rv).table
    ensures exists w :: Serves(routes + {r}, rv, w, e, Place(p, r, rv).table[e])
  {
    if e == r.EffectiveDatabase() && e !in p.winners && rv(r).Ok? {
      AddLast(routes, r);
      assert Serves(routes + {r}, rv, r, e, rv(r).value);
    } else {
      StillServes(routes, r, rv, e, p.table[e]);
    }
  }

  lemma StillServes(routes: set<PostgresRoute>, r: PostgresRoute, rv: Answers, d: Str, route: Route)
    requires r !in routes && forall q :: q in routes ==> Less(q, r)
    requires exists w :: Serves(routes, rv, w, d, route)
    ensures exists w :: Serves(routes + {r}, rv, w, d, route)
  {
    AddLast(routes, r);
    var w :| Serves(routes, rv, w, d, route);
    assert Serves(routes + {r}, rv, w, d, route);
  }

  lemma {:induction false} PlaceAllMeetsSpec(ordered: seq<PostgresRoute>, rv: Answers)
    requires Sorted(ordered) && DistinctKeys(ordered)
    ensures var p := PlaceAll(ordered, rv);
      && WinnersOf(Elements(ordered), p.winners)
      && DecidesAll(Elements(ordered), rv, p.decisions)
      && ServesAll(Elements(ordered), rv, p.table)
  {
    if ordered != [] {
      var n := |ordered| - 1;
      PlaceAllMeetsSpec(ordered[..n], rv);
      LastIsGreatest(ordered);
      PlaceLast(Elements(ordered[..n]), ordered[n], rv, PlaceAll(ordered[..n], rv));
    }
  }

  lemma LastIsGreatest(ordered: seq<PostgresRoute>)
    requires Sorted(ordered) && DistinctKeys(ordered) && ordered != []
    ensures var n := |ordered| - 1;
      var before := Elements(ordered[..n]);
      && Elements(ordered) == before + {ordered[n]}
      && ordered[n] !in before
      && forall q :: q in before ==> Less(q, ordered[n]) && q.Key() != ordered[n].Key()
  {
    var n := |ordered| - 1;
    assert ordered == ordered[..n] + [ordered[n]];
    forall q | q in Elements(ordered[..n]) ensures Less(q, ordered[n]) && q.Key() != ordered[n].Key() {
      var k :| 0 <= k < n && ordered[..n][k] == q;
      assert ordered[k] == q;
    }
  }

  lemma SortedKeysDistinct(routes: seq<PostgresRoute>)
    requires DistinctKeys(routes)
    ensures DistinctKeys(SortRoutes(routes))
  {
    SortIsSorted(routes);
    DistinctMeansUnique(routes);
    var s := SortRoutes(routes);
    forall i, j | 0 <= i < j < |s| ensures s[i].Key() != s[j].Key() {
      LessIsTotal(s[i], s[j]);
      assert s[i] in routes && s[j] in routes;
    }
  }

  lemma DistinctMeansUnique(routes: seq<PostgresRoute>)
    requires DistinctKeys(routes)
    ensures UniqueKeys(Elements(routes))
  {
    forall a, b | a in Elements(routes) && b in Elements(routes) && a.Key() == b.Key() ensures a == b {
      var i :| 0 <= i < |routes| && routes[i] == a;
      var j :| 0 <= j < |routes| && routes[j] == b;
    }
  }

  /** Build refines its specification. */
  lemma BuildMeetsSpec(routes: seq<PostgresRoute>, rv: Answers)
    requires DistinctKeys(routes)
    ensures MeetsSpec(Elements(routes), rv, BuildSnapshot(routes, rv))
  {
    SortIsSorted(routes);
    SortedKeysDistinct(routes);
    PlaceAllMeetsSpec(SortRoutes(routes), rv);
    assert Elements(SortRoutes(routes)) == Elements(routes);
  }

  /** Replicas agree: the snapshot depends on which routes exist, not on how they were listed. */
  lemma ReplicasAgree(a: seq<PostgresRoute>, b: seq<PostgresRoute>, rv: Answers)
    requires DistinctKeys(a) && DistinctKeys(b) && Elements(a) == Elements(b)
    ensures BuildSnapshot(a, rv) == BuildSnapshot(b, rv)
  {
    BuildMeetsSpec(a, rv);
    BuildMeetsSpec(b, rv);
    DistinctMeansUnique(a);
    SpecDeterminesSnapshot(Elements(a), rv, BuildSnapshot(a, rv), BuildSnapshot(b, rv));
  }

  /** A set of routes has one sorted arrangement, so any correct sort gives SortRoutes. */
  lemma {:induction false} SortedIsUnique(a: seq<PostgresRoute>, b: seq<PostgresRoute>)
    requires Sorted(a) && Sorted(b) && forall q :: q in a <==> q in b
    ensures a == b
  {
    assert b != [] ==> b[0] in a;
    if a != [] {
      assert a[0] in b;
      var i :| 0 <= i < |b| && b[i] == a[0];
      assert b[0] in b;
      var j :| 0 <= j < |a| && a[j] == b[0];
      if i > 0 { LessIsTotal(a[0], b[0]); }
      assert a[0] == b[0];
      TailElements(a, b);
      SortedIsUnique(a[1..], b[1..]);
      assert a == [a[0]] + a[1..] && b == [b[0]] + b[1..];
    }
  }

  lemma TailElements(a: seq<PostgresRoute>, b: seq<PostgresRoute>)
    requires a != [] && b != [] && a[0] == b[0] && Sorted(a) && Sorted(b) && forall q :: q in a <==> q in b
    ensures forall q :: q in a[1..] <==> q in b[1..]
  {
    LessIsTotal(a[0], a[0]);
    assert forall q :: q in a <==> q == a[0] || q in a[1..];
    assert forall q :: q in b <==> q == b[0] || q in b[1..];
    assert a[0] !in a[1..];
    assert b[0] !in b[1..];
  }

  // ---- What a snapshot tells the data plane ----

  /** An answer describes the route it was given for. */
  ghost predicate Faithful(rv: Answers) {
    forall r :: rv(r).Ok? ==>
      && rv(r).value.source == r.Key()
      && rv(r).value.database == r.EffectiveDatabase()
      && rv(r).value.targetDatabase == r.EffectiveTargetDatabase()
  }

  lemma ClusterAnswersAreFaithful(c: Cluster)
    ensures Faithful(AnswersFrom(c))
  {
    forall r | AnswersFrom(c)(r).Ok?
      ensures var out := AnswersFrom(c)(r).value;
        && out.source == r.Key() && out.database == r.EffectiveDatabase()
        && out.targetDatabase == r.EffectiveTargetDatabase()
    {
      assert AnswersFrom(c)(r) == Resolve(r, c);
    }
  }

  /** A name is routable exactly when its winner resolved; an unresolved winner yields it to nobody. */
  lemma RoutableExactlyWhenWinnerResolved(routes: set<PostgresRoute>, rv: Answers, s: Snapshot, w: PostgresRoute)
    requires MeetsSpec(routes, rv, s) && Faithful(rv) && IsWinner(routes, w)
    ensures var d := w.EffectiveDatabase();
      && (d in s.table <==> rv(w).Ok?)
      && (d in s.table ==> s.table[d] == rv(w).value && s.table[d].source == w.Key() && s.table[d].database == d)
      && (d in s.table ==> s.decisions[w.Key()].endpoint == s.table[d].Address())
      && (d !in s.table ==> s.decisions[w.Key()].endpoint == [] && s.decisions[w.Key()].resolveErr.Some?)
  {
    var d := w.EffectiveDatabase();
    assert DecidesRoute(routes, rv, w, s.decisions[w.Key()]);
    if d in s.table {
      var v :| Serves(routes, rv, v, d, s.table[d]);
      WinnerIsUnique(routes, v, w);
    }
  }

  /** Programmed is the truth about the table: it holds of exactly the routes that serve their name. */
  lemma ProgrammedMeansServing(routes: set<PostgresRoute>, rv: Answers, s: Snapshot, r: PostgresRoute)
    requires MeetsSpec(routes, rv, s) && Faithful(rv) && UniqueKeys(routes) && r in routes
    ensures var d := r.EffectiveDatabase();
      s.decisions[r.Key()].Programmed() <==> d in s.table && s.table[d].source == r.Key()
  {
    var w := WinnerExists(routes, r);
    RoutableExactlyWhenWinnerResolved(routes, rv, s, w);
    assert DecidesRoute(routes, rv, r, s.decisions[r.Key()]);
    if w == r {
    } else {
      WinnerIsUniqueKey(routes, w, r);
    }
  }

  lemma WinnerIsUniqueKey(routes: set<PostgresRoute>, w: PostgresRoute, r: PostgresRoute)
    requires UniqueKeys(routes) && IsWinner(routes, w) && r in routes && r != w
    requires r.EffectiveDatabase() == w.EffectiveDatabase()
    ensures !IsWinner(routes, r) && w.Key() != r.Key()
  {
    if IsWinner(routes, r) { WinnerIsUnique(routes, w, r); }
  }

  // ---- What a table entry stands for ----

  predicate AsksTLS(r: PostgresRoute) {
    r.spec.tls.Some? && r.spec.tls.value.mode != UnsetMode && r.spec.tls.value.mode != Disable
  }

  /** The policy is the one asked for; a CA that was asked for is never replaced by system trust. */
  ghost predicate HonoursTLS(r: PostgresRoute, c: Cluster, t: TLSConfig) {
    && (t.Enabled() <==> AsksTLS(r))
    && (!AsksTLS(r) ==> t == TLSConfig(Disable, None, []))
    && (AsksTLS(r) ==> t.mode == r.spec.tls.value.mode && t.serverName == r.spec.tls.value.serverName)
    && (t.rootCAs.Some? <==> CASecretOf(r).Some?)
    && (CASecretOf(r).Some? ==> HoldsCA(r, c, t.rootCAs.value))
  }

  /** The pool is the one the readable Secret holds under the route's key. */
  predicate HoldsCA(r: PostgresRoute, c: Cluster, pool: Pool)
    requires CASecretOf(r).Some?
  {
    var secret := CASecretOf(r).value;
    && c.caBundles && secret !in c.unreadableSecrets && secret in c.secrets
    && CAKeyOf(r) in c.secrets[secret] && c.secrets[secret][CAKeyOf(r)] == Some(pool)
  }

  /** The entry leads to the backend the route names: its address, or the port asked for of its Service. */
  ghost predicate PointsAt(r: PostgresRoute, c: Cluster, route: Route) {
    match r.spec.backend.kind
    case ServiceType =>
      r.spec.backend.service.Some? &&
      var b := r.spec.backend.service.value;
      var service := NamespacedName(if b.namespace == [] then r.namespace else b.namespace, b.name);
      && service !in c.unreadableServices && service in c.services && IsPortOf(c.services[service], b.port, route.port)
      && route.host == b.name + Ascii(".") + service.namespace + Ascii(".svc.") + c.domain
    case AddressType =>
      r.spec.backend.address.Some? &&
      var b := r.spec.backend.address.value;
      route.host == b.host && route.port == if b.port == 0 then 5432 else b.port
    case UnknownType(_) => false
  }

  lemma ResolvedPointsAt(r: PostgresRoute, c: Cluster)
    requires Resolve(r, c).Ok?
    ensures PointsAt(r, c, Resolve(r, c).value)
  {
    if r.spec.backend.kind.ServiceType? {
      var b := r.spec.backend.service.value;
      ResolvedPortIsDeclared(c, if b.namespace == [] then r.namespace else b.namespace, b.name, b.port);
    }
  }

  lemma ResolvedHonoursTLS(r: PostgresRoute, c: Cluster)
    requires Resolve(r, c).Ok?
    ensures HonoursTLS(r, c, Resolve(r, c).value.tls)
  {}

  /** Every table entry leads where its winner points, under the TLS policy its winner asks for. */
  lemma TableHonoursRoutes(routes: set<PostgresRoute>, c: Cluster, s: Snapshot, d: Str) returns (w: PostgresRoute)
    requires MeetsSpec(routes, AnswersFrom(c), s) && d in s.table
    ensures IsWinner(routes, w) && w.EffectiveDatabase() == d && Claims(w, d)
    ensures forall q :: q in routes && q != w && Claims(q, d) ==> ComesFirst(w, q)
    ensures PointsAt(w, c, s.table[d]) && HonoursTLS(w, c, s.table[d].tls)
    ensures s.table[d].source == w.Key() && s.table[d].database == d && s.table[d].targetDatabase == TargetOf(w)
  {
    w := EntryHasWinner(routes, AnswersFrom(c), s, d);
    WinnerByTheRule(routes, w, d);
    EntryHonours(w, c, s.table[d]);
  }

  lemma EntryHasWinner(routes: set<PostgresRoute>, rv: Answers, s: Snapshot, d: Str) returns (w: PostgresRoute)
    requires MeetsSpec(routes, rv, s) && d in s.table
    ensures IsWinner(routes, w) && w.EffectiveDatabase() == d && rv(w) == Ok(s.table[d])
  {
    w :| Serves(routes, rv, w, d, s.table[d]);
  }

  lemma EntryHonours(w: PostgresRoute, c: Cluster, route: Route)
    requires Resolve(w, c) == Ok(route)
    ensures PointsAt(w, c, route) && HonoursTLS(w, c, route.tls)
    ensures route.source == w.Key() && route.database == w.EffectiveDatabase() && route.targetDatabase == TargetOf(w)
  {
    ResolvedPointsAt(w, c);
    ResolvedHonoursTLS(w, c);
  }
}
