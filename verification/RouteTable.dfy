/**
 * The rebuild loop as a step relation: informer handlers, the depth-one trigger channel, the
 * pending flag with its debounce timer, and a rebuild that reads cluster objects one at a time.
 */
module RouteTable {
  import opened Bytes
  import opened Api
  import opened Resolver
  import opened Registry
  import Status

  /** The informer caches. Keys are unique because a cache is indexed by them. */
  datatype World = World(routes: map<NamespacedName, PostgresRoute>, cluster: Cluster)

  /** That a read fails is no part of the cache: it is an event, and no handler announces it. */
  predicate WellFormed(w: World) {
    && (forall k :: k in w.routes ==> w.routes[k].Key() == k)
    && w.cluster.unreadableServices == map[] && w.cluster.unreadableSecrets == map[]
  }

  ghost function RouteSet(w: World): set<PostgresRoute> { set k | k in w.routes :: w.routes[k] }

  /** A List returns every route once, in no particular order. */
  ghost predicate Lists(w: World, items: seq<PostgresRoute>) {
    DistinctKeys(items) && Elements(items) == RouteSet(w)
  }

  datatype Phase =
    | Waiting // in the select
    | Listing // rebuild entered, List not yet answered
    | Placing(listed: seq<PostgresRoute>, next: nat, acc: Progress, backend: Option<(Str, int32)>, heard: Hearsay)

  /** How resolving a route went: its own read may have failed, by the rebuild's deadline or otherwise. */
  datatype Heard = Resolved(answer: Result<Route, ResolveError>) | ReadFailed(error: ResolveError) {
    function Result(): Result<Route, ResolveError> { if Resolved? then answer else Err(error) }
  }

  type Hearsay = map<NamespacedName, Heard>

  /** What a finished rebuild listed, and what it heard about the routes it asked for. */
  datatype Source = Source(listed: seq<PostgresRoute>, heard: Hearsay)

  /**
   * Beside the fields of the source, history: `dirty` records that the cache changed after the newest
   * rebuild started, `answered` that the newest finished rebuild was given a list, and `origin` what
   * the published snapshot was built from.
   */
  datatype State = State(
    world: World, handlers: nat, trigger: bool, pending: bool, phase: Phase, published: Snapshot,
    dirty: bool, answered: bool, origin: Option<Source>, schedules: nat, rebuilds: nat)

  datatype Event =
    | CacheChanges(world: World)
    | HandlerRuns
    | TriggerReceived
    | TimerFires
    | ListFails
    | ListAnswers(items: seq<PostgresRoute>)
    | ReadsBackend(failure: Option<Str>)
    | ReadsTLS(failure: Option<Str>)
    | Publishes

  /** Start's state on entry: handlers may be in flight, and the first rebuild is under way. */
  ghost predicate Init(s: State) {
    && WellFormed(s.world) && !s.trigger && !s.pending && s.phase == Listing
    && s.published == EMPTY_SNAPSHOT && !s.dirty && !s.answered && s.origin.None? && s.schedules == 0 && s.rebuilds == 1
  }

  function Ordered(p: Phase): seq<PostgresRoute>
    requires p.Placing?
  {
    SortRoutes(p.listed)
  }

  /** What resolving a backend answers, when its read of the Service fails or does not. */
  function BackendAnswer(r: PostgresRoute, c: Cluster, failure: Option<Str>): Result<(Str, int32), ResolveError> {
    if failure.Some? && ServiceOf(r).Some?
    then ResolveBackend(r, c.(unreadableServices := map[ServiceOf(r).value := failure.value]))
    else ResolveBackend(r, c)
  }

  function TLSAnswer(r: PostgresRoute, c: Cluster, failure: Option<Str>): Result<TLSConfig, ResolveError> {
    if failure.Some? && CASecretOf(r).Some?
    then ResolveTLS(r, c.(unreadableSecrets := map[CASecretOf(r).value := failure.value]))
    else ResolveTLS(r, c)
  }

  /** The read of the next route that is due: only objects that are read can fail to be. */
  predicate MayFailBackend(r: PostgresRoute) { ServiceOf(r).Some? }
  predicate MayFailTLS(r: PostgresRoute, c: Cluster) { CASecretOf(r).Some? && c.caBundles }

  ghost predicate Enabled(s: State, e: Event) {
    match e
    case CacheChanges(w) => WellFormed(w)
    case HandlerRuns => s.handlers > 0
    case TriggerReceived => s.phase.Waiting? && s.trigger
    case TimerFires => s.phase.Waiting? && s.pending
    case ListFails => s.phase.Listing?
    case ListAnswers(items) => s.phase.Listing? && Lists(s.world, items)
    case ReadsBackend(failure) =>
      && s.phase.Placing? && s.phase.next < |Ordered(s.phase)| && s.phase.backend.None?
      && (failure.Some? ==> MayFailBackend(Ordered(s.phase)[s.phase.next]))
    case ReadsTLS(failure) =>
      && s.phase.Placing? && s.phase.next < |Ordered(s.phase)| && s.phase.backend.Some?
      && (failure.Some? ==> MayFailTLS(Ordered(s.phase)[s.phase.next], s.world.cluster))
    case Publishes => s.phase.Placing? && s.phase.next == |Ordered(s.phase)|
  }

  function Finish(p: Phase, r: PostgresRoute, h: Heard): Phase
    requires p.Placing?
  {
    Placing(p.listed, p.next + 1, Accept(p.acc, r, h.Result()), None, p.heard[r.Key() := h])
  }

  function Failure(e: ResolveError, failed: bool): Heard { if failed then ReadFailed(e) else Resolved(Err(e)) }

  /** One iteration of Build's loop up to the backend read; a taken name discards the answer. */
  function AfterBackendRead(p: Phase, b: Result<(Str, int32), ResolveError>, failed: bool): Phase
    requires p.Placing? && p.next < |Ordered(p)|
  {
    var r := Ordered(p)[p.next];
    if r.EffectiveDatabase() in p.acc.winners then p.(next := p.next + 1, acc := Reject(p.acc, r))
    else match b
      case Err(e) => Finish(p, r, Failure(e, failed))
      case Ok(backend) => p.(backend := Some(backend))
  }

  function AfterTLSRead(p: Phase, tls: Result<TLSConfig, ResolveError>, failed: bool): Phase
    requires p.Placing? && p.next < |Ordered(p)| && p.backend.Some?
  {
    var r := Ordered(p)[p.next];
    match tls
    case Err(e) => Finish(p, r, Failure(e, failed))
    case Ok(t) => Finish(p, r, Resolved(Ok(Assemble(r, p.backend.value, t))))
  }

  ghost function Apply(s: State, e: Event): State
    requires Enabled(s, e)
  {
    match e
    case CacheChanges(w) => s.(world := w, handlers := s.handlers + 1, dirty := true)
    case HandlerRuns => s.(handlers := s.handlers - 1, trigger := true, schedules := s.schedules + 1)
    case TriggerReceived => s.(trigger := false, pending := true)
    case TimerFires => s.(pending := false, phase := Listing, rebuilds := s.rebuilds + 1, dirty := false)
    case ListFails => s.(phase := Waiting, answered := false)
    case ListAnswers(items) => s.(phase := Placing(items, 0, NO_PROGRESS, None, map[]))
    case ReadsBackend(failure) =>
      var b := BackendAnswer(Ordered(s.phase)[s.phase.next], s.world.cluster, failure);
      s.(phase := AfterBackendRead(s.phase, b, failure.Some?))
    case ReadsTLS(failure) =>
      var tls := TLSAnswer(Ordered(s.phase)[s.phase.next], s.world.cluster, failure);
      s.(phase := AfterTLSRead(s.phase, tls, failure.Some?))
    case Publishes =>
      s.(phase := Waiting, answered := true, origin := Some(Source(s.phase.listed, s.phase.heard)),
         published := Snapshot(s.phase.acc.table, s.phase.acc.decisions))
  }

  ghost predicate IsRun(s: State, es: seq<Event>, t: State)
    decreases |es|
  {
    if es == [] then s == t else Enabled(s, es[0]) && IsRun(Apply(s, es[0]), es[1..], t)
  }

  // ---- Invariant ----

  /** Answers as heard, and as some other source has them where nothing was heard. */
  ghost function Recalled(heard: Hearsay, otherwise: Answers): Answers {
    (r: PostgresRoute) => if r.Key() in heard then heard[r.Key()].Result() else otherwise(r)
  }

  /** Placing these routes by what was heard, whatever it is that was not asked. */
  ghost predicate Accounts(placed: seq<PostgresRoute>, heard: Hearsay, acc: Progress) {
    forall otherwise: Answers :: acc == PlaceAll(placed, Recalled(heard, otherwise))
  }

  /** What every rebuild, disturbed or not, has computed so far. */
  ghost predicate Recorded(p: Phase) {
    p.Placing? ==>
      && DistinctKeys(p.listed) && p.next <= |Ordered(p)|
      && Accounts(Ordered(p)[..p.next], p.heard, p.acc)
      && (p.backend.Some? ==>
            p.next < |Ordered(p)| && Ordered(p)[p.next].EffectiveDatabase() !in p.acc.winners)
  }

  /** The error of a failed read names the object that this route asks for. */
  predicate OwnFailure(r: PostgresRoute, e: ResolveError) {
    match e.text
    case ServiceUnreadable(name, _) => ServiceOf(r) == Some(name) && e.classes == {}
    case CABundleUnavailable(SecretUnreadable(name, _)) => CASecretOf(r) == Some(name) && e.classes == {CABundle}
    case _ => false
  }

  ghost predicate TrueOf(r: PostgresRoute, c: Cluster, h: Heard) {
    match h
    case Resolved(answer) => answer == Resolve(r, c)
    case ReadFailed(e) => OwnFailure(r, e)
  }

  ghost predicate Truthful(w: World, heard: Hearsay) {
    forall k :: k in heard ==> k in w.routes && TrueOf(w.routes[k], w.cluster, heard[k])
  }

  /** What a rebuild undisturbed so far knows. */
  ghost predicate InStep(p: Phase, w: World) {
    p.Placing? ==>
      && Lists(w, p.listed) && Truthful(w, p.heard)
      && (p.backend.Some? ==>
            p.next < |Ordered(p)| && ResolveBackend(Ordered(p)[p.next], w.cluster) == Ok(p.backend.value))
  }

  /** The snapshot is the build of what its rebuild listed and heard. */
  ghost predicate BuiltFrom(origin: Option<Source>, published: Snapshot) {
    match origin
    case None => published == EMPTY_SNAPSHOT
    case Some(o) =>
      && DistinctKeys(o.listed)
      && forall otherwise: Answers :: published == BuildSnapshot(o.listed, Recalled(o.heard, otherwise))
  }

  ghost predicate AccurateOrigin(w: World, origin: Option<Source>) {
    origin.Some? && Lists(w, origin.value.listed) && Truthful(w, origin.value.heard)
  }

  ghost predicate Current(s: State) { MeetsSpec(RouteSet(s.world), AnswersFrom(s.world.cluster), s.published) }

  function One(b: bool): nat { if b then 1 else 0 }

  ghost predicate Inv(s: State) {
    && WellFormed(s.world) && Recorded(s.phase) && BuiltFrom(s.origin, s.published)
    // No lost update: a change no rebuild has started after is still on its way to one.
    && (s.dirty ==> s.handlers > 0 || s.trigger || s.pending)
    // An undisturbed rebuild works from the current cache.
    && (!s.dirty ==> InStep(s.phase, s.world))
    && (!s.dirty && s.phase.Waiting? && s.answered ==> AccurateOrigin(s.world, s.origin))
    && s.rebuilds + One(s.trigger) + One(s.pending) <= 1 + s.schedules
  }

  lemma InitHolds(s: State)
    requires Init(s)
    ensures Inv(s)
  {}

  lemma PlaceNext(ordered: seq<PostgresRoute>, n: nat, rv: Answers)
    requires n < |ordered|
    ensures PlaceAll(ordered[..n + 1], rv) == Place(PlaceAll(ordered[..n], rv), ordered[n], rv)
  {
    assert ordered[..n + 1][..n] == ordered[..n];
  }

  lemma FailedServiceRead(r: PostgresRoute, c: Cluster, failure: Str)
    requires MayFailBackend(r)
    ensures BackendAnswer(r, c, Some(failure)) == Err(ResolveError({}, ServiceUnreadable(ServiceOf(r).value, failure)))
  {}

  lemma FailedSecretRead(r: PostgresRoute, c: Cluster, failure: Str)
    requires MayFailTLS(r, c)
    ensures TLSAnswer(r, c, Some(failure))
      == Err(ResolveError({CABundle}, CABundleUnavailable(SecretUnreadable(CASecretOf(r).value, failure))))
  {
    var classes: set<ErrorClass> := {};
    assert classes + {CABundle} == {CABundle};
  }

  /** Hearing about the next route leaves the placed ones as they were. */
  lemma AcceptAccounts(ordered: seq<PostgresRoute>, n: nat, heard: Hearsay, acc: Progress, h: Heard)
    requires DistinctKeys(ordered) && n < |ordered| && Accounts(ordered[..n], heard, acc)
    requires ordered[n].EffectiveDatabase() !in acc.winners
    ensures Accounts(ordered[..n + 1], heard[ordered[n].Key() := h], Accept(acc, ordered[n], h.Result()))
  {
    var more := heard[ordered[n].Key() := h];
    forall otherwise: Answers
      ensures Accept(acc, ordered[n], h.Result()) == PlaceAll(ordered[..n + 1], Recalled(more, otherwise))
    {
      PlaceAgrees(ordered[..n], Recalled(heard, otherwise), Recalled(more, otherwise));
      PlaceNext(ordered, n, Recalled(more, otherwise));
    }
  }

  lemma RejectAccounts(ordered: seq<PostgresRoute>, n: nat, heard: Hearsay, acc: Progress)
    requires n < |ordered| && Accounts(ordered[..n], heard, acc) && ordered[n].EffectiveDatabase() in acc.winners
    ensures Accounts(ordered[..n + 1], heard, Reject(acc, ordered[n]))
  {
    forall otherwise: Answers
      ensures Reject(acc, ordered[n]) == PlaceAll(ordered[..n + 1], Recalled(heard, otherwise))
    {
      PlaceNext(ordered, n, Recalled(heard, otherwise));
    }
  }

  lemma FinishIsRecorded(p: Phase, h: Heard)
    requires p.Placing? && Recorded(p) && p.next < |Ordered(p)|
    requires Ordered(p)[p.next].EffectiveDatabase() !in p.acc.winners
    ensures Recorded(Finish(p, Ordered(p)[p.next], h))
  {
    SortedKeysDistinct(p.listed);
    AcceptAccounts(Ordered(p), p.next, p.heard, p.acc, h);
  }

  lemma BackendReadIsRecorded(p: Phase, b: Result<(Str, int32), ResolveError>, failed: bool)
    requires p.Placing? && Recorded(p) && p.next < |Ordered(p)| && p.backend.None?
    ensures Recorded(AfterBackendRead(p, b, failed))
  {
    if Ordered(p)[p.next].EffectiveDatabase() in p.acc.winners {
      RejectAccounts(Ordered(p), p.next, p.heard, p.acc);
    } else if b.Err? {
      FinishIsRecorded(p, Failure(b.error, failed));
    }
  }

  lemma TLSReadIsRecorded(p: Phase, tls: Result<TLSConfig, ResolveError>, failed: bool)
    requires p.Placing? && Recorded(p) && p.next < |Ordered(p)| && p.backend.Some?
    ensures Recorded(AfterTLSRead(p, tls, failed))
  {
    match tls
    case Err(e) => FinishIsRecorded(p, Failure(e, failed));
    case Ok(t) => FinishIsRecorded(p, Resolved(Ok(Assemble(Ordered(p)[p.next], p.backend.value, t))));
  }

  /** An undisturbed rebuild asks about the routes in the cache. */
  lemma NextIsCached(p: Phase, w: World)
    requires p.Placing? && WellFormed(w) && Lists(w, p.listed) && p.next < |Ordered(p)|
    ensures var r := Ordered(p)[p.next]; r.Key() in w.routes && w.routes[r.Key()] == r
  {
    SortIsSorted(p.listed);
    var r := Ordered(p)[p.next];
    assert r in Elements(p.listed);
    var k :| k in w.routes && w.routes[k] == r;
  }

  lemma FinishKeepsStep(p: Phase, w: World, h: Heard)
    requires p.Placing? && WellFormed(w) && InStep(p, w) && p.next < |Ordered(p)|
    requires TrueOf(Ordered(p)[p.next], w.cluster, h)
    ensures InStep(Finish(p, Ordered(p)[p.next], h), w)
  {
    NextIsCached(p, w);
  }

  lemma BackendReadKeepsStep(p: Phase, w: World, b: Result<(Str, int32), ResolveError>, failed: bool)
    requires p.Placing? && WellFormed(w) && InStep(p, w) && p.next < |Ordered(p)| && p.backend.None?
    requires var r := Ordered(p)[p.next];
      if failed then b.Err? && OwnFailure(r, b.error) else b == ResolveBackend(r, w.cluster)
    ensures InStep(AfterBackendRead(p, b, failed), w)
  {
    if b.Err? { FinishKeepsStep(p, w, Failure(b.error, failed)); }
  }

  lemma TLSReadKeepsStep(p: Phase, w: World, tls: Result<TLSConfig, ResolveError>, failed: bool)
    requires p.Placing? && WellFormed(w) && InStep(p, w) && p.next < |Ordered(p)| && p.backend.Some?
    requires var r := Ordered(p)[p.next];
      if failed then tls.Err? && OwnFailure(r, tls.error) else tls == ResolveTLS(r, w.cluster)
    ensures InStep(AfterTLSRead(p, tls, failed), w)
  {
    match tls
    case Err(e) => FinishKeepsStep(p, w, Failure(e, failed));
    case Ok(t) => FinishKeepsStep(p, w, Resolved(Ok(Assemble(Ordered(p)[p.next], p.backend.value, t))));
  }

  lemma ReadPreserves(s: State, q: Phase)
    requires Inv(s) && s.phase.Placing? && q.Placing? && Recorded(q) && (!s.dirty ==> InStep(q, s.world))
    ensures Inv(s.(phase := q))
  {}

  lemma BackendReadPreserves(s: State, failure: Option<Str>)
    requires Inv(s) && Enabled(s, ReadsBackend(failure))
    ensures Inv(Apply(s, ReadsBackend(failure)))
  {
    var r := Ordered(s.phase)[s.phase.next];
    var b := BackendAnswer(r, s.world.cluster, failure);
    if failure.Some? { FailedServiceRead(r, s.world.cluster, failure.value); }
    BackendReadIsRecorded(s.phase, b, failure.Some?);
    if !s.dirty { BackendReadKeepsStep(s.phase, s.world, b, failure.Some?); }
    ReadPreserves(s, AfterBackendRead(s.phase, b, failure.Some?));
  }

  lemma TLSReadPreserves(s: State, failure: Option<Str>)
    requires Inv(s) && Enabled(s, ReadsTLS(failure))
    ensures Inv(Apply(s, ReadsTLS(failure)))
  {
    var r := Ordered(s.phase)[s.phase.next];
    var tls := TLSAnswer(r, s.world.cluster, failure);
    if failure.Some? { FailedSecretRead(r, s.world.cluster, failure.value); }
    TLSReadIsRecorded(s.phase, tls, failure.Some?);
    if !s.dirty { TLSReadKeepsStep(s.phase, s.world, tls, failure.Some?); }
    ReadPreserves(s, AfterTLSRead(s.phase, tls, failure.Some?));
  }

  lemma PublishPreserves(s: State)
    requires Inv(s) && Enabled(s, Publishes)
    ensures Inv(Apply(s, Publishes))
  {
    var p := s.phase;
    assert Ordered(p)[..p.next] == Ordered(p);
    forall otherwise: Answers
      ensures Snapshot(p.acc.table, p.acc.decisions) == BuildSnapshot(p.listed, Recalled(p.heard, otherwise))
    {
      assert p.acc == PlaceAll(Ordered(p)[..p.next], Recalled(p.heard, otherwise));
    }
  }

  lemma ListPreserves(s: State, items: seq<PostgresRoute>)
    requires Inv(s) && Enabled(s, ListAnswers(items))
    ensures Inv(Apply(s, ListAnswers(items)))
  {
    assert SortRoutes(items)[..0] == [];
  }

  lemma LoopPreserves(s: State, e: Event)
    requires Inv(s) && Enabled(s, e)
    requires e.CacheChanges? || e.HandlerRuns? || e.TriggerReceived? || e.TimerFires? || e.ListFails?
    ensures Inv(Apply(s, e))
  {}

  lemma StepPreserves(s: State, e: Event)
    requires Inv(s) && Enabled(s, e)
    ensures Inv(Apply(s, e))
  {
    match e
    case ReadsBackend(failure) => BackendReadPreserves(s, failure);
    case ReadsTLS(failure) => TLSReadPreserves(s, failure);
    case Publishes => PublishPreserves(s);
    case ListAnswers(items) => ListPreserves(s, items);
    case _ => LoopPreserves(s, e);
  }

  lemma {:induction false} RunPreserves(s: State, es: seq<Event>, t: State)
    requires Inv(s) && IsRun(s, es, t)
    ensures Inv(t)
    decreases |es|
  {
    if es != [] {
      StepPreserves(s, es[0]);
      RunPreserves(Apply(s, es[0]), es[1..], t);
    }
  }

  // ---- What was published, failed reads included ----

  /** The answer of every route: the error of its own failed read if it had one, and otherwise what the cache says. */
  ghost function Observed(heard: Hearsay, c: Cluster): Answers {
    (r: PostgresRoute) =>
      if r.Key() in heard && heard[r.Key()].ReadFailed? then Err(heard[r.Key()].error) else Resolve(r, c)
  }

  lemma ObservedIsFaithful(heard: Hearsay, c: Cluster)
    ensures Faithful(Observed(heard, c))
  {
    ClusterAnswersAreFaithful(c);
    forall r | Observed(heard, c)(r).Ok? ensures Observed(heard, c)(r) == AnswersFrom(c)(r) {}
  }

  lemma RecalledIsObserved(w: World, listed: seq<PostgresRoute>, heard: Hearsay)
    requires WellFormed(w) && Lists(w, listed) && Truthful(w, heard)
    ensures forall r :: r in listed ==>
      Recalled(heard, AnswersFrom(w.cluster))(r) == Observed(heard, w.cluster)(r)
  {
    forall r | r in listed ensures Recalled(heard, AnswersFrom(w.cluster))(r) == Observed(heard, w.cluster)(r) {
      assert r in Elements(listed);
      var k :| k in w.routes && w.routes[k] == r;
      assert r.Key() in heard ==> TrueOf(r, w.cluster, heard[r.Key()]);
    }
  }

  lemma OriginMeetsSpec(w: World, o: Source, published: Snapshot)
    requires WellFormed(w) && Lists(w, o.listed) && Truthful(w, o.heard) && BuiltFrom(Some(o), published)
    ensures MeetsSpec(RouteSet(w), Observed(o.heard, w.cluster), published)
  {
    RecalledIsObserved(w, o.listed, o.heard);
    SortIsSorted(o.listed);
    PlaceAgrees(SortRoutes(o.listed), Recalled(o.heard, AnswersFrom(w.cluster)), Observed(o.heard, w.cluster));
    assert published == BuildSnapshot(o.listed, Recalled(o.heard, AnswersFrom(w.cluster)));
    BuildMeetsSpec(o.listed, Observed(o.heard, w.cluster));
  }

  /**
   * Whatever failed meanwhile, the published snapshot is the build of what its rebuild listed and
   * heard; and once an undisturbed rebuild has published, it is the snapshot that the cache calls
   * for, where only a route whose own read failed has that failure for an answer.
   */
  lemma PublishedIsBuilt(s: State, es: seq<Event>, t: State)
    requires Init(s) && IsRun(s, es, t)
    ensures BuiltFrom(t.origin, t.published)
    ensures !t.dirty && t.phase.Waiting? && t.answered ==>
      && t.origin.Some?
      && MeetsSpec(RouteSet(t.world), Observed(t.origin.value.heard, t.world.cluster), t.published)
      && forall r :: r in RouteSet(t.world) && FailedFor(t, r) ==>
           OwnFailure(r, t.origin.value.heard[r.Key()].error)
  {
    InitHolds(s);
    RunPreserves(s, es, t);
    if !t.dirty && t.phase.Waiting? && t.answered {
      OriginMeetsSpec(t.world, t.origin.value, t.published);
      forall r | r in RouteSet(t.world) && FailedFor(t, r)
        ensures OwnFailure(r, t.origin.value.heard[r.Key()].error)
      {
        var k :| k in t.world.routes && t.world.routes[k] == r;
        assert TrueOf(r, t.world.cluster, t.origin.value.heard[k]);
      }
    }
  }

  /** The route's own read failed in the rebuild behind the published snapshot. */
  predicate FailedFor(s: State, r: PostgresRoute) {
    s.origin.Some? && r.Key() in s.origin.value.heard && s.origin.value.heard[r.Key()].ReadFailed?
  }

  /** One failed read takes no other name off the air: a winner whose own reads succeeded is served. */
  lemma OtherFailuresAreHarmless(s: State, es: seq<Event>, t: State, w: PostgresRoute)
    requires Init(s) && IsRun(s, es, t) && !t.dirty && t.phase.Waiting? && t.answered
    requires IsWinner(RouteSet(t.world), w) && !FailedFor(t, w)
    ensures match Resolve(w, t.world.cluster)
      case Ok(route) => w.EffectiveDatabase() in t.published.table && t.published.table[w.EffectiveDatabase()] == route
      case Err(_) => w.EffectiveDatabase() !in t.published.table
  {
    PublishedIsBuilt(s, es, t);
    InitHolds(s);
    RunPreserves(s, es, t);
    var rv := Observed(t.origin.value.heard, t.world.cluster);
    assert rv(w) == Resolve(w, t.world.cluster);
    if w.EffectiveDatabase() in t.published.table {
      var v :| Serves(RouteSet(t.world), rv, v, w.EffectiveDatabase(), t.published.table[w.EffectiveDatabase()]);
      WinnerIsUnique(RouteSet(t.world), v, w);
    }
  }

  /** No read of the rebuild behind the published snapshot failed, nor did the newest finished one fail to list. */
  ghost predicate Clean(s: State) {
    s.answered && s.origin.Some? && NoneFailed(s.origin.value.heard)
  }

  ghost predicate NoneFailed(heard: Hearsay) { forall k :: k in heard ==> heard[k].Resolved? }

  lemma CleanMeansCurrent(s: State)
    requires Inv(s) && !s.dirty && s.phase.Waiting? && Clean(s)
    ensures Current(s)
  {
    var o, c := s.origin.value, s.world.cluster;
    OriginMeetsSpec(s.world, o, s.published);
    PlaceAgrees(SortRoutes(o.listed), Observed(o.heard, c), AnswersFrom(c));
    BuildMeetsSpec(o.listed, Observed(o.heard, c));
    DistinctMeansUnique(o.listed);
    SpecDeterminesSnapshot(RouteSet(s.world), Observed(o.heard, c),
      s.published, BuildSnapshot(o.listed, Observed(o.heard, c)));
    BuildMeetsSpec(o.listed, AnswersFrom(c));
  }

  // ---- What the counters count ----

  function Changes(es: seq<Event>): nat { if es == [] then 0 else One(es[0].CacheChanges?) + Changes(es[1..]) }
  function HandlerCalls(es: seq<Event>): nat { if es == [] then 0 else One(es[0].HandlerRuns?) + HandlerCalls(es[1..]) }
  function Firings(es: seq<Event>): nat { if es == [] then 0 else One(es[0].TimerFires?) + Firings(es[1..]) }

  function LastWorld(es: seq<Event>, w: World): World {
    if es == [] then w else LastWorld(es[1..], if es[0].CacheChanges? then es[0].world else w)
  }

  /** Handlers, schedule calls and rebuilds are counted one by one, and the cache is as last changed. */
  lemma {:induction false} StepsAreCounted(s: State, es: seq<Event>, t: State)
    requires IsRun(s, es, t)
    ensures t.handlers == s.handlers + Changes(es) - HandlerCalls(es) && t.schedules == s.schedules + HandlerCalls(es)
    ensures t.rebuilds == s.rebuilds + Firings(es) && t.world == LastWorld(es, s.world)
    decreases |es|
  {
    if es != [] {
      StepIsCounted(s, es[0]);
      StepsAreCounted(Apply(s, es[0]), es[1..], t);
    }
  }

  lemma StepIsCounted(s: State, e: Event)
    requires Enabled(s, e)
    ensures var t := Apply(s, e);
      && t.handlers == s.handlers + One(e.CacheChanges?) - One(e.HandlerRuns?)
      && t.schedules == s.schedules + One(e.HandlerRuns?) && t.rebuilds == s.rebuilds + One(e.TimerFires?)
      && t.world == if e.CacheChanges? then e.world else s.world
  {}

  // ---- Published decisions are well shaped, disturbed rebuilds included ----

  ghost predicate AllShaped(decisions: map<NamespacedName, Decision>) {
    forall k :: k in decisions ==> Status.BuildShaped(decisions[k])
  }

  ghost predicate Shaped(s: State) {
    AllShaped(s.published.decisions) && (s.phase.Placing? ==> AllShaped(s.phase.acc.decisions))
  }

  lemma AcceptIsShaped(p: Progress, r: PostgresRoute, resolved: Result<Route, ResolveError>)
    requires AllShaped(p.decisions) && (resolved.Err? ==> Status.Legible(resolved.error))
    ensures AllShaped(Accept(p, r, resolved).decisions)
  {
    if resolved.Ok? { assert resolved.value.Address() != []; }
  }

  lemma AnswersAreLegible(r: PostgresRoute, c: Cluster, failure: Option<Str>)
    ensures BackendAnswer(r, c, failure).Err? ==> Status.Legible(BackendAnswer(r, c, failure).error)
    ensures TLSAnswer(r, c, failure).Err? ==> Status.Legible(TLSAnswer(r, c, failure).error)
  {
    Status.ReasonFollowsText(r, c);
    if failure.Some? && ServiceOf(r).Some? {
      Status.ReasonFollowsText(r, c.(unreadableServices := map[ServiceOf(r).value := failure.value]));
    }
    if failure.Some? && CASecretOf(r).Some? {
      Status.ReasonFollowsText(r, c.(unreadableSecrets := map[CASecretOf(r).value := failure.value]));
    }
  }

  lemma AfterBackendIsShaped(p: Phase, b: Result<(Str, int32), ResolveError>, failed: bool)
    requires p.Placing? && p.next < |Ordered(p)| && AllShaped(p.acc.decisions)
    requires b.Err? ==> Status.Legible(b.error)
    ensures AllShaped(AfterBackendRead(p, b, failed).acc.decisions)
  {
    if b.Err? { AcceptIsShaped(p.acc, Ordered(p)[p.next], Err(b.error)); }
  }

  lemma AfterTLSIsShaped(p: Phase, tls: Result<TLSConfig, ResolveError>, failed: bool)
    requires p.Placing? && p.next < |Ordered(p)| && p.backend.Some? && AllShaped(p.acc.decisions)
    requires tls.Err? ==> Status.Legible(tls.error)
    ensures AllShaped(AfterTLSRead(p, tls, failed).acc.decisions)
  {
    var r := Ordered(p)[p.next];
    match tls
    case Err(e) => AcceptIsShaped(p.acc, r, Err(e));
    case Ok(t) => AcceptIsShaped(p.acc, r, Ok(Assemble(r, p.backend.value, t)));
  }

  lemma BackendReadIsShaped(s: State, failure: Option<Str>)
    requires Shaped(s) && Enabled(s, ReadsBackend(failure))
    ensures Shaped(Apply(s, ReadsBackend(failure)))
  {
    var r := Ordered(s.phase)[s.phase.next];
    AnswersAreLegible(r, s.world.cluster, failure);
    AfterBackendIsShaped(s.phase, BackendAnswer(r, s.world.cluster, failure), failure.Some?);
  }

  lemma TLSReadIsShaped(s: State, failure: Option<Str>)
    requires Shaped(s) && Enabled(s, ReadsTLS(failure))
    ensures Shaped(Apply(s, ReadsTLS(failure)))
  {
    var r := Ordered(s.phase)[s.phase.next];
    AnswersAreLegible(r, s.world.cluster, failure);
    AfterTLSIsShaped(s.phase, TLSAnswer(r, s.world.cluster, failure), failure.Some?);
  }

  lemma StepIsShaped(s: State, e: Event)
    requires Shaped(s) && Enabled(s, e)
    ensures Shaped(Apply(s, e))
  {
    match e
    case ReadsBackend(failure) => BackendReadIsShaped(s, failure);
    case ReadsTLS(failure) => TLSReadIsShaped(s, failure);
    case _ =>
  }

  /** Whatever failed and whatever changed meanwhile, every decision ever published is of Build's shape. */
  lemma {:induction false} PublishedIsShaped(s: State, es: seq<Event>, t: State)
    requires Shaped(s) && IsRun(s, es, t)
    ensures Shaped(t)
    decreases |es|
  {
    if es != [] {
      StepIsShaped(s, es[0]);
      PublishedIsShaped(Apply(s, es[0]), es[1..], t);
    }
  }

  // ---- Theorems about whole runs ----

  ghost predicate Quiescent(s: State) {
    s.phase.Waiting? && s.handlers == 0 && !s.trigger && !s.pending
  }

  /** No update is lost, and rebuilds are coalesced: at most one per schedule call, plus the first. */
  lemma NoLostUpdate(s: State, es: seq<Event>, t: State, listing: seq<PostgresRoute>)
    requires Init(s) && IsRun(s, es, t) && Lists(t.world, listing)
    ensures t.dirty ==> t.handlers > 0 || t.trigger || t.pending
    ensures Quiescent(t) && Clean(t) ==> t.published == BuildSnapshot(listing, AnswersFrom(t.world.cluster))
    ensures t.rebuilds <= 1 + t.schedules
  {
    InitHolds(s);
    RunPreserves(s, es, t);
    if Quiescent(t) && Clean(t) {
      CleanMeansCurrent(t);
      BuildMeetsSpec(listing, AnswersFrom(t.world.cluster));
      DistinctMeansUnique(listing);
      SpecDeterminesSnapshot(RouteSet(t.world), AnswersFrom(t.world.cluster),
        t.published, BuildSnapshot(listing, AnswersFrom(t.world.cluster)));
    }
  }

  predicate Internal(e: Event) { !e.CacheChanges? }

  function PhaseRank(p: Phase): nat {
    match p case Waiting => 0 case Placing(_, _, _, _, _) => 1 case Listing => 2
  }

  function ReadsLeft(p: Phase): int {
    match p
    case Placing(_, next, _, backend, _) => 2 * (|Ordered(p)| - next) - One(backend.Some?)
    case _ => 0
  }

  /** Lexicographic progress of the loop once the cluster stops changing. */
  predicate Advances(s: State, t: State) {
    || t.handlers < s.handlers
    || (t.handlers == s.handlers && One(t.trigger) < One(s.trigger))
    || (t.handlers == s.handlers && t.trigger == s.trigger && One(t.pending) < One(s.pending))
    || (t.handlers == s.handlers && t.trigger == s.trigger && t.pending == s.pending
        && PhaseRank(t.phase) < PhaseRank(s.phase))
    || (t.handlers == s.handlers && t.trigger == s.trigger && t.pending == s.pending
        && PhaseRank(t.phase) == PhaseRank(s.phase) && 0 <= ReadsLeft(t.phase) < ReadsLeft(s.phase))
  }

  /** A step of the loop itself in which no List and no read fails. */
  predicate Benign(e: Event) { Internal(e) && FailureFree(e) }

  predicate FailureFree(e: Event) {
    !e.ListFails? && ((e.ReadsBackend? || e.ReadsTLS?) ==> e.failure.None?)
  }

  /** Left alone, every step advances the loop, and a step without failure is possible until it is quiescent. */
  lemma LoopSettles(s: State)
    requires Inv(s)
    ensures forall e :: Internal(e) && Enabled(s, e) ==> Advances(s, Apply(s, e)) && Apply(s, e).world == s.world
    ensures (exists e :: Benign(e) && Enabled(s, e)) <==> !Quiescent(s)
  {
    forall e | Internal(e) && Enabled(s, e)
      ensures Advances(s, Apply(s, e)) && Apply(s, e).world == s.world && !Quiescent(s)
    {
      EventAdvances(s, e);
    }
    if !Quiescent(s) { var e := NextEvent(s); }
  }

  lemma EventAdvances(s: State, e: Event)
    requires Inv(s) && Internal(e) && Enabled(s, e)
    ensures Advances(s, Apply(s, e)) && Apply(s, e).world == s.world && !Quiescent(s)
  {
    match e
    case ReadsBackend(failure) => BackendReadAdvances(s, failure);
    case ReadsTLS(failure) => TLSReadAdvances(s, failure);
    case _ => LoopAdvances(s, e);
  }

  lemma LoopAdvances(s: State, e: Event)
    requires Inv(s) && Enabled(s, e)
    requires !e.CacheChanges? && !e.ReadsBackend? && !e.ReadsTLS?
    ensures Advances(s, Apply(s, e))
  {}

  lemma BackendReadAdvances(s: State, failure: Option<Str>)
    requires Enabled(s, ReadsBackend(failure))
    ensures Advances(s, Apply(s, ReadsBackend(failure)))
  {
    ReadsAdvance(s.phase, Apply(s, ReadsBackend(failure)).phase);
  }

  lemma TLSReadAdvances(s: State, failure: Option<Str>)
    requires Enabled(s, ReadsTLS(failure))
    ensures Advances(s, Apply(s, ReadsTLS(failure)))
  {
    ReadsAdvance(s.phase, Apply(s, ReadsTLS(failure)).phase);
  }

  lemma ReadsAdvance(p: Phase, q: Phase)
    requires p.Placing? && q.Placing? && p.listed == q.listed && p.next < |Ordered(p)|
    requires (q.next == p.next + 1 && q.backend.None?) || (q.next == p.next && p.backend.None? && q.backend.Some?)
    ensures 0 <= ReadsLeft(q) < ReadsLeft(p)
  {}

  /** Every cache has a listing. */
  lemma {:induction false} ListingExists(w: World, keys: set<NamespacedName>) returns (items: seq<PostgresRoute>)
    requires WellFormed(w) && keys <= w.routes.Keys
    ensures DistinctKeys(items) && Elements(items) == set k | k in keys :: w.routes[k]
    decreases keys
  {
    if keys == {} {
      items := [];
    } else {
      var k :| k in keys;
      var rest := ListingExists(w, keys - {k});
      items := [w.routes[k]] + rest;
      forall i | 0 <= i < |rest| ensures rest[i].Key() != k { assert rest[i] in Elements(rest); }
      Listed(w, keys, k, rest, items);
    }
  }

  lemma Listed(w: World, keys: set<NamespacedName>, k: NamespacedName, rest: seq<PostgresRoute>,
      items: seq<PostgresRoute>)
    requires k in keys && keys <= w.routes.Keys && items == [w.routes[k]] + rest
    requires Elements(rest) == set j | j in keys - {k} :: w.routes[j]
    ensures Elements(items) == set j | j in keys :: w.routes[j]
  {
    forall r ensures r in Elements(items) <==> r == w.routes[k] || r in Elements(rest) {
      assert r in items <==> r == w.routes[k] || r in rest;
    }
  }

  lemma NextEvent(s: State) returns (e: Event)
    requires Inv(s) && !Quiescent(s)
    ensures Benign(e) && Enabled(s, e)
  {
    if s.handlers > 0 { return HandlerRuns; }
    match s.phase
    case Waiting => return if s.trigger then TriggerReceived else TimerFires;
    case Listing =>
      var items := ListingExists(s.world, s.world.routes.Keys);
      return ListAnswers(items);
    case Placing(_, next, _, backend, _) =>
      if next == |Ordered(s.phase)| { return Publishes; }
      return if backend.None? then ReadsBackend(None) else ReadsTLS(None);
  }

  // ---- Convergence ----

  /** No rebuild since the start has failed. */
  ghost predicate Unfailed(s: State) {
    (s.phase.Waiting? ==> Clean(s)) && (s.phase.Placing? ==> NoneFailed(s.phase.heard))
  }

  lemma StaysUnfailed(s: State, e: Event)
    requires Unfailed(s) && Enabled(s, e) && FailureFree(e)
    ensures Unfailed(Apply(s, e))
  {}

  lemma {:induction false} RunStaysUnfailed(s: State, es: seq<Event>, t: State)
    requires Unfailed(s) && IsRun(s, es, t) && forall e :: e in es ==> FailureFree(e)
    ensures Unfailed(t)
    decreases |es|
  {
    if es != [] {
      StaysUnfailed(s, es[0]);
      RunStaysUnfailed(Apply(s, es[0]), es[1..], t);
    }
  }

  /** A run without failures that cannot go on by itself has published the build of the current cache. */
  lemma StuckMeansCurrent(s: State, es: seq<Event>, t: State, listing: seq<PostgresRoute>)
    requires Init(s) && IsRun(s, es, t) && (forall e :: e in es ==> FailureFree(e)) && Lists(t.world, listing)
    requires forall e :: Benign(e) ==> !Enabled(t, e)
    ensures t.published == BuildSnapshot(listing, AnswersFrom(t.world.cluster))
  {
    InitHolds(s);
    RunPreserves(s, es, t);
    RunStaysUnfailed(s, es, t);
    if !Quiescent(t) { var e := NextEvent(t); }
    NoLostUpdate(s, es, t, listing);
  }

  ghost predicate CanSettle(s: State) {
    exists es, t :: IsRun(s, es, t) && Quiescent(t) && forall e :: e in es ==> Benign(e)
  }

  lemma SettlesAfter(s: State, e: Event)
    requires Enabled(s, e) && Benign(e) && CanSettle(Apply(s, e))
    ensures CanSettle(s)
  {
    var es, t :| IsRun(Apply(s, e), es, t) && Quiescent(t) && forall e :: e in es ==> Benign(e);
    assert ([e] + es)[1..] == es;
    assert IsRun(s, [e] + es, t);
  }

  /** And such an end is within reach: from every state of every run the loop can settle without failing. */
  lemma {:induction false} LoopCanSettle(s: State)
    requires Inv(s)
    ensures CanSettle(s)
    decreases s.handlers, One(s.trigger), One(s.pending), PhaseRank(s.phase), ReadsLeft(s.phase)
  {
    if Quiescent(s) {
      assert IsRun(s, [], s);
    } else {
      var e := NextEvent(s);
      EventAdvances(s, e);
      StepPreserves(s, e);
      LoopCanSettle(Apply(s, e));
      SettlesAfter(s, e);
    }
  }

  /** A rebuild whose List fails is not retried: the loop goes quiet with an outdated table. */
  lemma FailedListIsNotRetried(s: State, r: PostgresRoute)
    requires Init(s) && s.handlers == 0 && s.world.routes == map[r.Key() := r]
    ensures var t := Apply(s, ListFails);
      IsRun(s, [ListFails], t) && Quiescent(t) && !Clean(t) && !Current(t)
  {
    var t := Apply(s, ListFails);
    assert IsRun(t, [], t);
    assert [ListFails][1..] == [];
    assert r.Key() in s.world.routes;
    assert r in RouteSet(s.world);
    assert r.Key() in Keys(RouteSet(s.world));
  }
}
