/**
 * The rebuild loop and the status loop together: a snapshot is published to both at once, and no
 * further one is before every event of it was sent or dropped.
 */
module ControlPlane {
  import opened Bytes
  import opened Api
  import opened Resolver
  import opened Registry
  import Notify
  import Status
  import Table = RouteTable
  import Reporting = StatusLoop

  datatype State = State(table: Table.State, status: Reporting.State)

  /** A delivery of one route moves the cache that both loops read; Services and Secrets are the table's alone. */
  datatype Event =
    | TableStep(t: Table.Event)
    | StatusStep(u: Reporting.Event)
    | Delivers(key: NamespacedName, obj: Option<Reporting.Object>)
    | Republishes

  /** The routes in a cache, as the rebuild loop lists them. */
  ghost function RoutesIn(cache: map<NamespacedName, Reporting.Object>): map<NamespacedName, PostgresRoute> {
    map k | k in cache :: cache[k].route
  }

  /** The world after a delivery to the cache. */
  ghost function WorldAfter(s: State, key: NamespacedName, obj: Option<Reporting.Object>): Table.World {
    s.table.world.(routes := RoutesIn(Reporting.Put(s.status.cache, key, obj)))
  }

  ghost predicate Enabled(s: State, e: Event) {
    match e
    case TableStep(t) =>
      && !t.Publishes? && Table.Enabled(s.table, t)
      && (t.CacheChanges? ==> t.world.routes == s.table.world.routes)
    case StatusStep(u) => !u.Publishes? && !u.CacheDelivers? && Reporting.Enabled(s.status, u)
    case Delivers(key, obj) =>
      && Reporting.Enabled(s.status, Reporting.CacheDelivers(key, obj))
      && Table.WellFormed(WorldAfter(s, key, obj)) // a cache is indexed by the keys of its objects
    case Republishes => Table.Enabled(s.table, Table.Publishes) && s.status.toNotify == {} // notifyChanged has returned
  }

  ghost function Apply(s: State, e: Event): State
    requires Enabled(s, e)
  {
    match e
    case TableStep(t) => s.(table := Table.Apply(s.table, t))
    case StatusStep(u) => s.(status := Reporting.Apply(s.status, u))
    case Delivers(key, obj) =>
      State(Table.Apply(s.table, Table.CacheChanges(WorldAfter(s, key, obj))),
        Reporting.Apply(s.status, Reporting.CacheDelivers(key, obj)))
    case Republishes =>
      var t := Table.Apply(s.table, Table.Publishes);
      var decisions := t.published.decisions;
      State(t, s.status.(decisions := decisions, toNotify := Notify.Affected(s.status.decisions, decisions)))
  }

  ghost predicate IsRun(s: State, es: seq<Event>, t: State)
    decreases |es|
  {
    if es == [] then s == t else Enabled(s, es[0]) && IsRun(Apply(s, es[0]), es[1..], t)
  }

  ghost predicate Init(s: State) {
    && Table.Init(s.table) && Reporting.Init(s.status)
    && s.status.decisions == map[] && s.status.toNotify == {}
    && s.table.world.routes == RoutesIn(s.status.cache)
  }

  ghost predicate Inv(s: State) {
    && Table.Inv(s.table) && Table.Shaped(s.table) && Reporting.Inv(s.status)
    && s.status.decisions == s.table.published.decisions
    && s.table.world.routes == RoutesIn(s.status.cache)
  }

  lemma InitHolds(s: State)
    requires Init(s)
    ensures Inv(s)
  {
    Table.InitHolds(s.table);
    Reporting.InitHolds(s.status);
  }

  /** The loops fit: the status loop takes every snapshot the rebuild loop can ever publish. */
  lemma RepublishIsAdmitted(s: State)
    requires Inv(s) && Enabled(s, Republishes)
    ensures var ds := Table.Apply(s.table, Table.Publishes).published.decisions;
      && Reporting.Enabled(s.status, Reporting.Publishes(ds))
      && Apply(s, Republishes).status == Reporting.Apply(s.status, Reporting.Publishes(ds))
  {
    Table.StepIsShaped(s.table, Table.Publishes);
  }

  lemma TableStepPreserves(s: State, e: Table.Event)
    requires Inv(s) && Enabled(s, TableStep(e))
    ensures Inv(Apply(s, TableStep(e)))
  {
    Table.StepPreserves(s.table, e);
    Table.StepIsShaped(s.table, e);
    OnlyPublishingPublishes(s.table, e);
  }

  lemma OnlyPublishingPublishes(s: Table.State, e: Table.Event)
    requires Table.Enabled(s, e) && !e.Publishes?
    ensures Table.Apply(s, e).published == s.published
    ensures !e.CacheChanges? ==> Table.Apply(s, e).world == s.world
  {}

  lemma StatusStepPreserves(s: State, e: Reporting.Event)
    requires Inv(s) && Enabled(s, StatusStep(e))
    ensures Inv(Apply(s, StatusStep(e)))
  {
    Reporting.StepPreserves(s.status, e);
    OnlyDeliveriesMoveTheCache(s.status, e);
  }

  lemma OnlyDeliveriesMoveTheCache(s: Reporting.State, e: Reporting.Event)
    requires Reporting.Enabled(s, e) && !e.Publishes?
    ensures Reporting.Apply(s, e).decisions == s.decisions
    ensures !e.CacheDelivers? ==> Reporting.Apply(s, e).cache == s.cache
  {
    match e
    case Finishes(k, outcome, now) => Reporting.FinishKeepsRest(s, k, outcome, now);
    case _ =>
  }

  lemma DeliveryPreserves(s: State, key: NamespacedName, obj: Option<Reporting.Object>)
    requires Inv(s) && Enabled(s, Delivers(key, obj))
    ensures Inv(Apply(s, Delivers(key, obj)))
  {
    var change := Table.CacheChanges(WorldAfter(s, key, obj));
    Table.StepPreserves(s.table, change);
    Table.StepIsShaped(s.table, change);
    OnlyPublishingPublishes(s.table, change);
    Reporting.StepPreserves(s.status, Reporting.CacheDelivers(key, obj));
    OnlyDeliveriesMoveTheCache(s.status, Reporting.CacheDelivers(key, obj));
  }

  lemma RepublishPreserves(s: State)
    requires Inv(s) && Enabled(s, Republishes)
    ensures Inv(Apply(s, Republishes))
  {
    RepublishIsAdmitted(s);
    Table.StepPreserves(s.table, Table.Publishes);
    Table.StepIsShaped(s.table, Table.Publishes);
    Reporting.StepPreserves(s.status, Reporting.Publishes(Table.Apply(s.table, Table.Publishes).published.decisions));
  }

  lemma {:induction false} RunPreserves(s: State, es: seq<Event>, t: State)
    requires Inv(s) && IsRun(s, es, t)
    ensures Inv(t)
    decreases |es|
  {
    if es != [] {
      match es[0] {
        case TableStep(e) => TableStepPreserves(s, e);
        case StatusStep(e) => StatusStepPreserves(s, e);
        case Delivers(key, obj) => DeliveryPreserves(s, key, obj);
        case Republishes => RepublishPreserves(s);
      }
      RunPreserves(Apply(s, es[0]), es[1..], t);
    }
  }

  /** The routes the API server holds. */
  ghost function Stored(s: State): set<PostgresRoute> { set k | k in s.status.api :: s.status.api[k].route }

  /** What the published snapshot was answered about each route. */
  ghost function Observed(t: Table.State): Answers
    requires t.origin.Some?
  {
    Table.Observed(t.origin.value.heard, t.world.cluster)
  }

  /**
   * At rest the cluster is told the truth. In every run of both loops, once the rebuild loop is
   * quiescent after a rebuild that could list and nothing is pending for a live route whose event was
   * not dropped, the status recorded in the API server agrees with what the cached routes, Services and
   * Secrets make of the very spec and generation recorded beside it, the route's own failed read
   * included; and the cached routes are the stored ones when no other route lags either.
   */
  lemma TruthAtRest(s: State, es: seq<Event>, t: State, k: NamespacedName)
    requires Init(s) && IsRun(s, es, t)
    requires Table.Quiescent(t.table) && t.table.answered
    requires Reporting.Live(t.status, k) && Reporting.Idle(t.status, k) && k !in t.status.dropped
    ensures t.table.origin.Some?
    ensures var w, o := t.table.world, t.status.api[k];
      && o.route in Table.RouteSet(w) && o.route.Key() == k
      && Status.TellsTheTruth(Table.RouteSet(w), Observed(t.table), t.table.published.table,
           o.route, o.generation, o.status)
      && (!Table.FailedFor(t.table, o.route) ==> Observed(t.table)(o.route) == Resolve(o.route, w.cluster))
    ensures (forall j :: !Reporting.Lags(t.status, j)) ==> Table.RouteSet(t.table.world) == Stored(t)
  {
    InitHolds(s);
    RunPreserves(s, es, t);
    TableAtRest(t.table);
    StatusAtRest(t.table, t.status, k);
    if forall j :: !Reporting.Lags(t.status, j) { CachedIsStored(t); }
  }

  lemma StatusAtRest(t: Table.State, u: Reporting.State, k: NamespacedName)
    requires t.origin.Some? && MeetsSpec(Table.RouteSet(t.world), Observed(t), t.published) && Faithful(Observed(t))
    requires Table.WellFormed(t.world) && t.world.routes == RoutesIn(u.cache)
    requires u.decisions == t.published.decisions && Reporting.Settled(u, k)
    requires Reporting.Live(u, k) && Reporting.Idle(u, k) && k !in u.dropped
    ensures var o := u.api[k];
      && o.route in Table.RouteSet(t.world) && o.route.Key() == k
      && Status.TellsTheTruth(Table.RouteSet(t.world), Observed(t), t.published.table, o.route, o.generation, o.status)
  {
    var o := u.api[k];
    KnownRoute(t.world, Observed(t), t.published, k);
    assert Reporting.At(u.cache, k) == Some(o) && t.world.routes[k] == o.route;
    Status.StatusTellsTheTruth(Table.RouteSet(t.world), Observed(t), t.published, o.route, o.generation, o.status);
  }

  lemma TableAtRest(t: Table.State)
    requires Table.Inv(t) && Table.Quiescent(t) && t.answered
    ensures t.origin.Some? && MeetsSpec(Table.RouteSet(t.world), Observed(t), t.published) && Faithful(Observed(t))
  {
    Table.OriginMeetsSpec(t.world, t.origin.value, t.published);
    Table.ObservedIsFaithful(t.origin.value.heard, t.world.cluster);
  }

  lemma CachedIsStored(t: State)
    requires t.table.world.routes == RoutesIn(t.status.cache) && forall j :: !Reporting.Lags(t.status, j)
    ensures Table.RouteSet(t.table.world) == Stored(t)
  {
    forall j ensures Reporting.At(t.status.cache, j) == Reporting.At(t.status.api, j) {
      assert !Reporting.Lags(t.status, j);
    }
    SameEverywhere(t.status.cache, t.status.api);
    var w := t.table.world;
    forall r | r in Stored(t) ensures r in Table.RouteSet(w) {
      var k :| k in t.status.api && t.status.api[k].route == r;
      assert w.routes[k] == r;
    }
  }

  lemma SameEverywhere(a: map<NamespacedName, Reporting.Object>, b: map<NamespacedName, Reporting.Object>)
    requires forall j :: Reporting.At(a, j) == Reporting.At(b, j)
    ensures a == b
  {
    forall j ensures j in a <==> j in b { assert Reporting.At(a, j) == Reporting.At(b, j); }
    forall j | j in a ensures a[j] == b[j] { assert Reporting.At(a, j) == Reporting.At(b, j); }
  }

  /** A snapshot of the cache decides exactly the routes in it. */
  lemma KnownRoute(w: Table.World, rv: Answers, snapshot: Snapshot, k: NamespacedName)
    requires Table.WellFormed(w) && MeetsSpec(Table.RouteSet(w), rv, snapshot)
    requires k in snapshot.decisions
    ensures k in w.routes && w.routes[k] in Table.RouteSet(w) && w.routes[k].Key() == k
    ensures UniqueKeys(Table.RouteSet(w))
  {
    assert k in Keys(Table.RouteSet(w));
    var r :| r in Table.RouteSet(w) && r.Key() == k;
    var j :| j in w.routes && w.routes[j] == r;
  }
}
