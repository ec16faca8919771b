/**
 * Status reporting as a step relation: published decisions, the lossy event channel, the work
 * queue, an informer cache that lags behind the API server, and reconciles that read, load and
 * patch in separate steps.
 */
module StatusLoop {
  import opened Bytes
  import opened Api
  import opened Resolver
  import opened Registry
  import opened Notify
  import opened Status

  type Key = NamespacedName

  /** A PostgresRoute as the API server holds it: metadata and spec in `route`, and its status. */
  datatype Object = Object(route: PostgresRoute, generation: int, deleting: bool, status: RouteStatus, version: nat)

  /** A reconcile in progress: after its Get, and after its load of the snapshot. */
  datatype Work = Got(obj: Object) | Loaded(obj: Object, decision: Decision)

  /** `dropped` holds keys whose event found the channel full and that were not reconciled since. */
  datatype State = State(
    api: map<Key, Object>, cache: map<Key, Object>, version: nat,
    decisions: Decisions, toNotify: set<Key>, channel: seq<Key>, capacity: nat, dropped: set<Key>,
    queue: set<Key>, active: map<Key, Work>)

  datatype Outcome = Written | Conflict | PatchFailed

  datatype Event =
    | ApiWrites(key: Key, obj: Option<Object>)     // anyone else creates, updates or deletes
    | CacheDelivers(key: Key, obj: Option<Object>) // the informer moves to some version it saw
    | Publishes(decisions: Decisions)
    | Notifies(key: Key)
    | ChannelDrains
    | Begins(key: Key)
    | LoadsDecision(key: Key)
    | Finishes(key: Key, outcome: Outcome, now: int)

  function At(m: map<Key, Object>, k: Key): Option<Object> { if k in m then Some(m[k]) else None }

  function Put(m: map<Key, Object>, k: Key, o: Option<Object>): (m': map<Key, Object>)
    ensures At(m', k) == o
    ensures forall j :: j != k ==> At(m', j) == At(m, j)
  {
    match o
    case Some(obj) => m[k := obj]
    case None => m - {k}
  }

  // ---- Steps ----

  ghost predicate Admissible(o: Option<Object>) { o.Some? ==> UniqueTypes(o.value.status.conditions) }

  ghost predicate Enabled(s: State, e: Event) {
    match e
    case ApiWrites(k, o) => Admissible(o) && (o.Some? ==> o.value.version == s.version + 1)
    case CacheDelivers(k, o) => Admissible(o) && (o.Some? ==> o.value.version <= s.version)
    case Publishes(ds) => s.toNotify == {} && forall k :: k in ds ==> BuildShaped(ds[k])
    case Notifies(k) => k in s.toNotify
    case ChannelDrains => s.channel != []
    case Begins(k) => k in s.queue && k !in s.active
    case LoadsDecision(k) => k in s.active && s.active[k].Got?
    case Finishes(k, outcome, _) =>
      && k in s.active && s.active[k].Loaded?
      && (outcome == Written ==> k in s.api)
      && (outcome == Conflict ==> At(s.api, k) != Some(s.active[k].obj))
  }

  /** A JSON merge patch sends the fields that differ from what was read; lists travel whole. */
  function Merged(read: RouteStatus, desired: RouteStatus, current: RouteStatus): RouteStatus {
    RouteStatus(
      if read.observedGeneration != desired.observedGeneration then desired.observedGeneration
      else current.observedGeneration,
      if read.database != desired.database then desired.database else current.database,
      if read.endpoint != desired.endpoint then desired.endpoint else current.endpoint,
      if read.conflictingRoute != desired.conflictingRoute then desired.conflictingRoute else current.conflictingRoute,
      if read.conditions != desired.conditions then desired.conditions else current.conditions)
  }

  ghost function Begin(s: State, k: Key): State
    requires k in s.queue
  {
    var s' := s.(queue := s.queue - {k});
    if k !in s.cache || s.cache[k].deleting then s' // not found, or going away
    else s'.(active := s.active[k := Got(s.cache[k])])
  }

  ghost function Load(s: State, k: Key): State
    requires k in s.active
  {
    if k !in s.decisions then s.(active := s.active - {k}, queue := s.queue + {k}) // RequeueAfter
    else s.(active := s.active[k := Loaded(s.active[k].obj, s.decisions[k])], dropped := s.dropped - {k})
  }

  ghost function Finish(s: State, k: Key, outcome: Outcome, now: int): State
    requires k in s.active && s.active[k].Loaded? && (outcome == Written ==> k in s.api)
  {
    var Loaded(o, d) := s.active[k];
    Conclude(s, k, o, Desired(o.status, ProjectionOf(o.generation, d), now), outcome)
  }

  /** The end of a reconcile that read o and wants it to have the desired status. */
  ghost function Conclude(s: State, k: Key, o: Object, desired: RouteStatus, outcome: Outcome): State
    requires outcome == Written ==> k in s.api
  {
    var s' := s.(active := s.active - {k});
    if EqualStatus(o.status, desired) then s'
    else match outcome
      case Conflict => s'
      case PatchFailed => s'.(queue := s.queue + {k})
      case Written =>
        var current := s.api[k];
        var written := current.(status := Merged(o.status, desired, current.status), version := s.version + 1);
        s'.(api := s.api[k := written], version := s.version + 1)
  }

  ghost function Apply(s: State, e: Event): State
    requires Enabled(s, e)
  {
    match e
    case ApiWrites(k, o) => s.(api := Put(s.api, k, o), version := s.version + 1)
    case CacheDelivers(k, o) => s.(cache := Put(s.cache, k, o), queue := s.queue + {k})
    case Publishes(ds) => s.(decisions := ds, toNotify := Affected(s.decisions, ds))
    case Notifies(k) =>
      if |s.channel| < s.capacity then s.(toNotify := s.toNotify - {k}, channel := s.channel + [k])
      else s.(toNotify := s.toNotify - {k}, dropped := s.dropped + {k})
    case ChannelDrains => s.(channel := s.channel[1..], queue := s.queue + {s.channel[0]})
    case Begins(k) => Begin(s, k)
    case LoadsDecision(k) => Load(s, k)
    case Finishes(k, outcome, now) => Finish(s, k, outcome, now)
  }

  ghost predicate IsRun(s: State, es: seq<Event>, t: State)
    decreases |es|
  {
    if es == [] then s == t else Enabled(s, es[0]) && IsRun(Apply(s, es[0]), es[1..], t)
  }

  /** Start-up or election: the initial sync queues every cached route, whatever is published. */
  ghost predicate Init(s: State) {
    && WellFormed(s)
    && s.active == map[]
    && forall k :: k in s.cache ==> k in s.queue
  }

  // ---- Invariant ----

  ghost predicate WellFormed(s: State) {
    && (forall k :: k in s.decisions ==> BuildShaped(s.decisions[k]))
    && (forall k :: k in s.api ==> s.api[k].version <= s.version && UniqueTypes(s.api[k].status.conditions))
    && (forall k :: k in s.cache ==> s.cache[k].version <= s.version && UniqueTypes(s.cache[k].status.conditions))
    && (forall k :: k in s.active ==> UniqueTypes(s.active[k].obj.status.conditions))
  }

  ghost predicate Lags(s: State, k: Key) { At(s.cache, k) != At(s.api, k) }

  /** k is on its way to a reconcile through the channel or the queue, or its event was dropped. */
  ghost predicate Announced(s: State, k: Key) {
    k in s.toNotify || k in s.channel || k in s.queue || k in s.dropped
  }

  ghost predicate UpToDate(s: State, k: Key)
    requires k in s.api && k in s.decisions
  {
    Reports(s.api[k].status, ProjectionOf(s.api[k].generation, s.decisions[k]))
  }

  ghost predicate Live(s: State, k: Key) { k in s.api && !s.api[k].deleting && k in s.decisions }

  ghost predicate Settled(s: State, k: Key) {
    Live(s, k) && k !in s.active ==> UpToDate(s, k) || Announced(s, k) || Lags(s, k)
  }

  /** A running reconcile works from current inputs, or will be repeated. */
  ghost predicate Fresh(s: State, k: Key) {
    k in s.active ==>
      && (k in s.queue || At(s.cache, k) == Some(s.active[k].obj))
      && !s.active[k].obj.deleting
      && (s.active[k].Loaded? && k in s.decisions ==>
            Announced(s, k) || SameProjection(s.active[k].decision, s.decisions[k]))
  }

  ghost predicate SameProjection(d: Decision, e: Decision) {
    forall gen :: ProjectionOf(gen, d) == ProjectionOf(gen, e)
  }

  ghost predicate Inv(s: State) {
    WellFormed(s) && forall k :: Settled(s, k) && Fresh(s, k)
  }

  lemma InitHolds(s: State)
    requires Init(s)
    ensures Inv(s)
  {
    forall k ensures Settled(s, k) && Fresh(s, k) {
      if k in s.api && k !in s.cache { assert Lags(s, k); }
    }
  }

  /** A step that changes nothing about j, or only announces it, keeps what holds of j. */
  lemma KeepsKey(s: State, t: State, j: Key)
    requires Settled(s, j) && Fresh(s, j)
    requires At(t.api, j) == At(s.api, j) && At(t.cache, j) == At(s.cache, j) && t.decisions == s.decisions
    requires j in t.active <==> j in s.active
    requires j in s.active ==> t.active[j] == s.active[j]
    requires (j in s.queue ==> j in t.queue) && (Announced(s, j) ==> Announced(t, j))
    ensures Settled(t, j) && Fresh(t, j)
  {}

  lemma ApiWritesPreserves(s: State, k: Key, o: Option<Object>)
    requires Inv(s) && Enabled(s, ApiWrites(k, o))
    ensures Inv(Apply(s, ApiWrites(k, o)))
  {
    var t := Apply(s, ApiWrites(k, o));
    forall j | j in t.api ensures t.api[j].version <= t.version && UniqueTypes(t.api[j].status.conditions) {
      assert At(t.api, j) == if j == k then o else At(s.api, j);
    }
    forall j ensures Settled(t, j) && Fresh(t, j) {
      assert Settled(s, j) && Fresh(s, j);
      assert j != k ==> At(t.api, j) == At(s.api, j);
    }
  }

  lemma CacheDeliversPreserves(s: State, k: Key, o: Option<Object>)
    requires Inv(s) && Enabled(s, CacheDelivers(k, o))
    ensures Inv(Apply(s, CacheDelivers(k, o)))
  {
    var t := Apply(s, CacheDelivers(k, o));
    forall j | j in t.cache ensures t.cache[j].version <= t.version && UniqueTypes(t.cache[j].status.conditions) {
      assert At(t.cache, j) == if j == k then o else At(s.cache, j);
    }
    forall j ensures Settled(t, j) && Fresh(t, j) {
      assert Settled(s, j) && Fresh(s, j);
      assert j != k ==> At(t.cache, j) == At(s.cache, j);
    }
  }

  lemma UnaffectedKeepsProjection(s: State, ds: Decisions, k: Key)
    requires WellFormed(s) && (forall j :: j in ds ==> BuildShaped(ds[j]))
    requires k in ds && k !in Affected(s.decisions, ds)
    ensures k in s.decisions && SameProjection(s.decisions[k], ds[k])
  {
    forall gen ensures ProjectionOf(gen, s.decisions[k]) == ProjectionOf(gen, ds[k]) {
      UnchangedProjectsAlike(gen, s.decisions[k], ds[k]);
    }
  }

  lemma PublishesPreserves(s: State, ds: Decisions)
    requires Inv(s) && Enabled(s, Publishes(ds))
    ensures Inv(Apply(s, Publishes(ds)))
  {
    var t := Apply(s, Publishes(ds));
    forall j ensures Settled(t, j) && Fresh(t, j) {
      assert Settled(s, j) && Fresh(s, j);
      if j in ds && j !in Affected(s.decisions, ds) { UnaffectedKeepsProjection(s, ds, j); }
    }
  }

  /** Moving announcements along keeps the invariant. */
  lemma AnnouncingPreserves(s: State, t: State)
    requires Inv(s)
    requires t.api == s.api && t.cache == s.cache && t.version == s.version && t.decisions == s.decisions
    requires t.active == s.active && s.queue <= t.queue
    requires forall j :: Announced(s, j) ==> Announced(t, j)
    ensures Inv(t)
  {
    forall j ensures Settled(t, j) && Fresh(t, j) {
      assert Settled(s, j) && Fresh(s, j);
      KeepsKey(s, t, j);
    }
  }

  lemma NotifiesPreserves(s: State, k: Key)
    requires Inv(s) && Enabled(s, Notifies(k))
    ensures Inv(Apply(s, Notifies(k)))
  {
    AnnouncingPreserves(s, Apply(s, Notifies(k)));
  }

  lemma DrainPreserves(s: State)
    requires Inv(s) && Enabled(s, ChannelDrains)
    ensures Inv(Apply(s, ChannelDrains))
  {
    var t := Apply(s, ChannelDrains);
    assert s.channel == [s.channel[0]] + t.channel;
    AnnouncingPreserves(s, t);
  }

  lemma BeginsPreserves(s: State, k: Key)
    requires Inv(s) && Enabled(s, Begins(k))
    ensures Inv(Apply(s, Begins(k)))
  {
    var t := Apply(s, Begins(k));
    forall j ensures Settled(t, j) && Fresh(t, j) {
      assert Settled(s, j) && Fresh(s, j);
      if j != k { KeepsKey(s, t, j); }
    }
  }

  lemma LoadsPreserves(s: State, k: Key)
    requires Inv(s) && Enabled(s, LoadsDecision(k))
    ensures Inv(Apply(s, LoadsDecision(k)))
  {
    var t := Apply(s, LoadsDecision(k));
    forall j ensures Settled(t, j) && Fresh(t, j) {
      assert Settled(s, j) && Fresh(s, j);
      if j != k { KeepsKey(s, t, j); }
    }
  }

  /** Finishing without a write means the status read already reported the decision loaded. */
  lemma QuietMeansReported(s: State, k: Key, now: int)
    requires Inv(s) && k in s.active && s.active[k].Loaded?
    requires var Loaded(o, d) := s.active[k];
      EqualStatus(o.status, Desired(o.status, ProjectionOf(o.generation, d), now))
    ensures var t := s.(active := s.active - {k}); Settled(t, k)
  {
    var Loaded(o, d) := s.active[k];
    assert Fresh(s, k);
    WritesExactlyWhenStale(o.status, ProjectionOf(o.generation, d), now);
  }

  /** A write moves the API server past the cache, so the informer will bring the key back. */
  lemma FinishSettles(s: State, k: Key, outcome: Outcome, now: int)
    requires Inv(s) && Enabled(s, Finishes(k, outcome, now))
    ensures Settled(Finish(s, k, outcome, now), k)
  {
    var t := Finish(s, k, outcome, now);
    var Loaded(o, d) := s.active[k];
    assert Fresh(s, k);
    if EqualStatus(o.status, Desired(o.status, ProjectionOf(o.generation, d), now)) {
      QuietMeansReported(s, k, now);
    } else if outcome == Written {
      assert t.api[k].version == s.version + 1;
      assert Lags(t, k);
    }
  }

  lemma MergedHasUniqueTypes(read: RouteStatus, desired: RouteStatus, current: RouteStatus)
    requires UniqueTypes(desired.conditions) && UniqueTypes(current.conditions)
    ensures UniqueTypes(Merged(read, desired, current).conditions)
  {}

  lemma WriteIsWellFormed(s: State, k: Key, o: Object)
    requires WellFormed(s) && o.version == s.version + 1 && UniqueTypes(o.status.conditions)
    ensures WellFormed(s.(active := s.active - {k}, api := s.api[k := o], version := s.version + 1))
  {}

  lemma FinishIsWellFormed(s: State, k: Key, outcome: Outcome, now: int)
    requires WellFormed(s) && Enabled(s, Finishes(k, outcome, now))
    ensures WellFormed(Finish(s, k, outcome, now))
  {
    var Loaded(o, d) := s.active[k];
    DesiredReports(o.status, ProjectionOf(o.generation, d), now);
    ConclusionIsWellFormed(s, k, o, Desired(o.status, ProjectionOf(o.generation, d), now), outcome);
  }

  lemma ConclusionIsWellFormed(s: State, k: Key, o: Object, desired: RouteStatus, outcome: Outcome)
    requires WellFormed(s) && (outcome == Written ==> k in s.api) && UniqueTypes(desired.conditions)
    ensures WellFormed(Conclude(s, k, o, desired, outcome))
  {
    if outcome == Written {
      var current := s.api[k];
      MergedHasUniqueTypes(o.status, desired, current.status);
      WriteIsWellFormed(s, k, current.(status := Merged(o.status, desired, current.status), version := s.version + 1));
    }
  }

  lemma FinishesPreserves(s: State, k: Key, outcome: Outcome, now: int)
    requires Inv(s) && Enabled(s, Finishes(k, outcome, now))
    ensures Inv(Apply(s, Finishes(k, outcome, now)))
  {
    FinishSettles(s, k, outcome, now);
    FinishIsWellFormed(s, k, outcome, now);
    var t := Finish(s, k, outcome, now);
    var Loaded(o, d) := s.active[k];
    forall j ensures Settled(t, j) && Fresh(t, j) {
      assert Settled(s, j) && Fresh(s, j);
      ConcludeKeeps(s, k, o, Desired(o.status, ProjectionOf(o.generation, d), now), outcome, j);
    }
  }

  lemma ConcludeKeeps(s: State, k: Key, o: Object, desired: RouteStatus, outcome: Outcome, j: Key)
    requires Settled(s, j) && Fresh(s, j) && (outcome == Written ==> k in s.api)
    ensures j != k ==> Settled(Conclude(s, k, o, desired, outcome), j)
    ensures Fresh(Conclude(s, k, o, desired, outcome), j)
  {
    if j != k { KeepsKey(s, Conclude(s, k, o, desired, outcome), j); }
  }

  lemma StepPreserves(s: State, e: Event)
    requires Inv(s) && Enabled(s, e)
    ensures Inv(Apply(s, e))
  {
    match e
    case ApiWrites(k, o) => ApiWritesPreserves(s, k, o);
    case CacheDelivers(k, o) => CacheDeliversPreserves(s, k, o);
    case Publishes(ds) => PublishesPreserves(s, ds);
    case Notifies(k) => NotifiesPreserves(s, k);
    case ChannelDrains => DrainPreserves(s);
    case Begins(k) => BeginsPreserves(s, k);
    case LoadsDecision(k) => LoadsPreserves(s, k);
    case Finishes(k, outcome, now) => FinishesPreserves(s, k, outcome, now);
  }

  lemma {:induction false} RunPreserves(s: State, es: seq<Event>, t: State)
    requires Inv(s) && IsRun(s, es, t)
    ensures Inv(t)
    decreases |es|
  {
    if es != [] {
      StepPreserves(s, es[0]);
      RunPreserves(Apply(s, es[0]), es[1..], t);
    }
  }

  // ---- Theorems about whole runs ----

  /** In every run, a stale status is on its way to being rewritten unless its own event was dropped. */
  lemma StatusCatchesUp(s: State, es: seq<Event>, t: State, k: Key)
    requires Init(s) && IsRun(s, es, t)
    requires Live(t, k) && !UpToDate(t, k) && k !in t.dropped
    ensures k in t.toNotify || k in t.channel || k in t.queue || k in t.active || Lags(t, k)
  {
    InitHolds(s);
    RunPreserves(s, es, t);
    assert Settled(t, k);
  }

  /** Nothing is left to do for k. */
  ghost predicate Idle(s: State, k: Key) {
    k !in s.toNotify && k !in s.channel && k !in s.queue && k !in s.active && !Lags(s, k)
  }

  /** Once idle, every status is honest, except possibly those whose event was dropped. */
  lemma IdleStatusIsHonest(s: State, es: seq<Event>, t: State, k: Key)
    requires Init(s) && IsRun(s, es, t) && Live(t, k) && Idle(t, k) && k !in t.dropped
    ensures var c := t.api[k].status.conditions;
      && UpToDate(t, k)
      && (t.decisions[k].Programmed() <==>
            Find(c, Programmed).Some? && Find(c, Programmed).value.status == True)
  {
    InitHolds(s);
    RunPreserves(s, es, t);
    assert Settled(t, k);
  }

  /** A drop does lose the update: with the channel full, a stale route is left with nothing pending. */
  lemma DroppedEventStrandsStatus(s: State, k: Key)
    requires Inv(s) && |s.channel| == s.capacity && k in s.toNotify
    requires Live(s, k) && !UpToDate(s, k) && k !in s.channel && k !in s.queue && k !in s.active && !Lags(s, k)
    ensures Enabled(s, Notifies(k))
    ensures var t := Apply(s, Notifies(k));
      Inv(t) && Live(t, k) && !UpToDate(t, k) && Idle(t, k) && k in t.dropped
  {
    NotifiesPreserves(s, k);
  }

  /** The end of a reconcile touches the API server, and the queue if its patch failed. */
  ghost predicate KeepsRest(s: State, t: State, k: Key, outcome: Outcome) {
    && t.cache == s.cache && t.decisions == s.decisions && t.toNotify == s.toNotify && t.channel == s.channel
    && t.active == s.active - {k} && s.queue <= t.queue && (outcome != PatchFailed ==> t.queue == s.queue)
  }

  lemma FinishKeepsRest(s: State, k: Key, outcome: Outcome, now: int)
    requires Enabled(s, Finishes(k, outcome, now))
    ensures KeepsRest(s, Finish(s, k, outcome, now), k, outcome)
  {
    var Loaded(o, d) := s.active[k];
    ConclusionKeepsRest(s, k, o, Desired(o.status, ProjectionOf(o.generation, d), now), outcome);
  }

  lemma ConclusionKeepsRest(s: State, k: Key, o: Object, desired: RouteStatus, outcome: Outcome)
    requires outcome == Written ==> k in s.api
    ensures KeepsRest(s, Conclude(s, k, o, desired, outcome), k, outcome)
  {}

  /** A route without a decision, cached and on its way to a reconcile. */
  ghost predicate Awaits(s: State, k: Key) {
    && k !in s.decisions && k in s.cache && !s.cache[k].deleting
    && (k in s.queue || (k in s.active && s.active[k].Got?))
  }

  /** Nothing decides the route, and the informer does not report it gone or going. */
  predicate LeavesUndecided(e: Event, k: Key) {
    match e
    case Publishes(ds) => k !in ds
    case CacheDelivers(j, o) => j == k ==> o.Some? && !o.value.deleting
    case _ => true
  }

  lemma StillAwaits(s: State, e: Event, k: Key)
    requires Awaits(s, k) && Enabled(s, e) && LeavesUndecided(e, k)
    ensures Awaits(Apply(s, e), k)
  {
    if e.CacheDelivers? { assert At(Apply(s, e).cache, k) == if e.key == k then e.obj else At(s.cache, k); }
    if e.Finishes? { FinishKeepsRest(s, e.key, e.outcome, e.now); }
  }

  /** A reconcile that comes before the first decision is repeated, in every run, until there is one. */
  lemma {:induction false} UndecidedIsRetried(s: State, es: seq<Event>, t: State, k: Key)
    requires Awaits(s, k) && IsRun(s, es, t) && forall e :: e in es ==> LeavesUndecided(e, k)
    ensures Awaits(t, k)
    decreases |es|
  {
    if es != [] {
      StillAwaits(s, es[0], k);
      UndecidedIsRetried(Apply(s, es[0]), es[1..], t, k);
    }
  }

  // ---- What a write achieves ----

  /** The object a reconcile read is still the stored one when it writes. */
  ghost predicate Unraced(s: State, k: Key) {
    k in s.active && s.active[k].Loaded? && At(s.api, k) == Some(s.active[k].obj)
  }

  /** A patch of what is stored makes it what was wanted. */
  lemma MergedUnraced(read: RouteStatus, desired: RouteStatus)
    ensures Merged(read, desired, read) == desired
  {}

  /** Without a race the reconcile leaves the stored status reporting its decision, and all else as it was. */
  lemma UnracedWriteReports(s: State, k: Key, now: int)
    requires WellFormed(s) && Unraced(s, k)
    ensures Enabled(s, Finishes(k, Written, now))
    ensures var t := Apply(s, Finishes(k, Written, now));
      && k in t.api && Reports(t.api[k].status, ProjectionOf(t.api[k].generation, s.active[k].decision))
      && t.api[k].(status := s.api[k].status, version := s.api[k].version) == s.api[k]
      && t.api - {k} == s.api - {k}
      && (Reports(s.api[k].status, ProjectionOf(s.api[k].generation, s.active[k].decision)) ==> t.api == s.api)
  {
    var Loaded(o, d) := s.active[k];
    var p := ProjectionOf(o.generation, d);
    DesiredReports(o.status, p, now);
    WritesExactlyWhenStale(o.status, p, now);
    ConcludesWith(s, k, o, Desired(o.status, p, now));
  }

  lemma ConcludesWith(s: State, k: Key, o: Object, desired: RouteStatus)
    requires At(s.api, k) == Some(o)
    ensures var t := Conclude(s, k, o, desired, Written);
      && t.api == (if EqualStatus(o.status, desired) then s.api
                   else s.api[k := o.(status := desired, version := s.version + 1)])
      && t.api - {k} == s.api - {k}
  {
    MergedUnraced(o.status, desired);
  }

  /** The owned conditions of a list say what is projected. */
  predicate ConditionsReport(cs: seq<Condition>, p: Projection) {
    && Find(cs, Accepted) == Some(p.accepted) && Find(cs, Resolved) == Some(p.resolved)
    && Find(cs, Programmed) == Some(p.programmed)
  }

  /**
   * When another writer came in between, the result reports the decision exactly where the field was
   * sent because the status read was outdated, or where the other writer left it right. Conditions
   * travel whole: whoever wrote conditions of other types meanwhile loses them once any is sent.
   */
  lemma RacedWrite(read: RouteStatus, p: Projection, now: int, current: RouteStatus)
    ensures var desired := Desired(read, p, now);
      var result := Merged(read, desired, current);
      && (Reports(result, p) <==>
            && (read.observedGeneration != p.observedGeneration || current.observedGeneration == p.observedGeneration)
            && (read.database != p.database || current.database == p.database)
            && (read.endpoint != p.endpoint || current.endpoint == p.endpoint)
            && (read.conflictingRoute != p.conflictingRoute || current.conflictingRoute == p.conflictingRoute)
            && (read.conditions != desired.conditions || ConditionsReport(current.conditions, p)))
      && forall name :: Find(result.conditions, Foreign(name)) ==
           Find(if read.conditions != desired.conditions then read.conditions else current.conditions, Foreign(name))
  {
    DesiredReports(read, p, now);
    forall name
      ensures Find(SetAll(read.conditions, p, now), Foreign(name)) == Find(read.conditions, Foreign(name))
    {
      FindAfterSetAll(read.conditions, p, now, Foreign(name));
    }
  }

  // ---- Catching up ----

  /** A step in which nobody else writes a route and no new snapshot is published. */
  predicate Alone(e: Event) { !e.ApiWrites? && !e.Publishes? }

  ghost predicate Reaches(s: State, t: State) {
    exists es :: IsRun(s, es, t) && forall e :: e in es ==> Alone(e)
  }

  lemma StepReaches(s: State, e: Event)
    requires Enabled(s, e) && Alone(e)
    ensures Reaches(s, Apply(s, e))
  {
    OneStep(s, e);
  }

  lemma ReachesOn(s: State, m: State, t: State)
    requires Reaches(s, m) && Reaches(m, t)
    ensures Reaches(s, t)
  {
    var es :| IsRun(s, es, m) && forall e :: e in es ==> Alone(e);
    var fs :| IsRun(m, fs, t) && forall e :: e in fs ==> Alone(e);
    RunThenRun(s, es, m, fs, t);
  }

  /** Nothing runs for k, and no announcement of it is on its way to the queue. */
  ghost predicate Unscheduled(s: State, k: Key) { k !in s.active && k !in s.toNotify && k !in s.channel }

  /** As far as k is concerned, these states store and decide the same. */
  ghost predicate SameInputs(s: State, t: State) { t.api == s.api && t.decisions == s.decisions }

  lemma {:induction false} ChannelEmpties(s: State) returns (t: State)
    requires Inv(s)
    ensures Reaches(s, t) && Inv(t) && SameInputs(s, t) && t.channel == []
    ensures t.active == s.active && t.toNotify == s.toNotify
    decreases |s.channel|
  {
    if s.channel == [] {
      t := s;
      assert IsRun(s, [], s);
    } else {
      DrainPreserves(s);
      StepReaches(s, ChannelDrains);
      t := ChannelEmpties(Apply(s, ChannelDrains));
      ReachesOn(s, Apply(s, ChannelDrains), t);
    }
  }

  lemma NotificationLeaves(s: State, k: Key) returns (t: State)
    requires Inv(s)
    ensures Reaches(s, t) && Inv(t) && SameInputs(s, t) && t.active == s.active && k !in t.toNotify
  {
    if k in s.toNotify {
      NotifiesPreserves(s, k);
      StepReaches(s, Notifies(k));
      t := Apply(s, Notifies(k));
    } else {
      t := s;
      assert IsRun(s, [], s);
    }
  }

  /** A running reconcile can end, be it by a failed patch. */
  lemma ReconcileEnds(s: State, k: Key) returns (t: State)
    requires Inv(s) && Live(s, k)
    ensures Reaches(s, t) && Inv(t) && SameInputs(s, t) && k !in t.active
  {
    if k !in s.active {
      t := s;
      assert IsRun(s, [], s);
    } else if s.active[k].Loaded? {
      t := LoadedEnds(s, k);
    } else {
      LoadsPreserves(s, k);
      StepReaches(s, LoadsDecision(k));
      var m := Apply(s, LoadsDecision(k));
      t := LoadedEnds(m, k);
      ReachesOn(s, m, t);
    }
  }

  lemma LoadedEnds(s: State, k: Key) returns (t: State)
    requires Inv(s) && k in s.active && s.active[k].Loaded?
    ensures Reaches(s, t) && Inv(t) && SameInputs(s, t) && k !in t.active
  {
    FinishesPreserves(s, k, PatchFailed, 0);
    StepReaches(s, Finishes(k, PatchFailed, 0));
    t := Apply(s, Finishes(k, PatchFailed, 0));
  }

  lemma ComesToRest(s: State, k: Key) returns (t: State)
    requires Inv(s) && Live(s, k)
    ensures Reaches(s, t) && Inv(t) && SameInputs(s, t) && Unscheduled(t, k)
  {
    var a := ReconcileEnds(s, k);
    var b := NotificationLeaves(a, k);
    t := ChannelEmpties(b);
    ReachesOn(a, b, t);
    ReachesOn(s, a, t);
  }

  /** The informer delivers what is stored, as a resync does, and a reconcile reads it and loads its decision. */
  lemma Rereads(s: State, k: Key) returns (t: State)
    requires Inv(s) && Live(s, k) && Unscheduled(s, k)
    ensures Reaches(s, t) && Inv(t) && SameInputs(s, t) && At(t.cache, k) == Some(s.api[k])
    ensures k !in t.toNotify && k !in t.channel && k !in t.queue && k !in t.dropped
    ensures k in t.active && t.active[k] == Loaded(s.api[k], s.decisions[k])
  {
    var delivery := CacheDelivers(k, Some(s.api[k]));
    CacheDeliversPreserves(s, k, Some(s.api[k]));
    StepReaches(s, delivery);
    var a := Apply(s, delivery);
    assert At(a.cache, k) == Some(s.api[k]);
    t := ReadsAndLoads(a, k);
    ReachesOn(s, a, t);
  }

  lemma ReadsAndLoads(s: State, k: Key) returns (t: State)
    requires Inv(s) && Live(s, k) && Unscheduled(s, k) && k in s.queue && At(s.cache, k) == Some(s.api[k])
    ensures Reaches(s, t) && Inv(t) && SameInputs(s, t) && t.cache == s.cache
    ensures k !in t.toNotify && k !in t.channel && k !in t.queue && k !in t.dropped
    ensures k in t.active && t.active[k] == Loaded(s.api[k], s.decisions[k])
  {
    BeginsPreserves(s, k);
    StepReaches(s, Begins(k));
    var b := Apply(s, Begins(k));
    LoadsPreserves(b, k);
    StepReaches(b, LoadsDecision(k));
    t := Apply(b, LoadsDecision(k));
    ReachesOn(s, b, t);
  }

  /** One undisturbed reconcile brings the status up to date; if it was already, the cache is level too. */
  lemma Round(s: State, k: Key) returns (t: State)
    requires Inv(s) && Live(s, k) && Unscheduled(s, k)
    ensures Reaches(s, t) && Inv(t) && Live(t, k) && Unscheduled(t, k) && k !in t.queue && UpToDate(t, k)
    ensures UpToDate(s, k) ==> !Lags(t, k)
  {
    var m := Rereads(s, k);
    UnracedWriteReports(m, k, 0);
    FinishesPreserves(m, k, Written, 0);
    StepReaches(m, Finishes(k, Written, 0));
    t := Apply(m, Finishes(k, Written, 0));
    FinishKeepsRest(m, k, Written, 0);
    ReachesOn(s, m, t);
  }

  /** Left alone by other writers, the loop can bring k to rest with its status up to date. */
  ghost predicate CanCatchUp(s: State, k: Key) {
    exists t :: Reaches(s, t) && Live(t, k) && Idle(t, k) && UpToDate(t, k)
  }

  /** From every state of every run, whatever was dropped, failed or raced, the status of a live route can catch up. */
  lemma StatusCanCatchUp(s: State, es: seq<Event>, t: State, k: Key)
    requires Init(s) && IsRun(s, es, t) && Live(t, k)
    ensures CanCatchUp(t, k)
  {
    InitHolds(s);
    RunPreserves(s, es, t);
    var a := ComesToRest(t, k);
    var b := Round(a, k);
    var c := Round(b, k);
    ReachesOn(a, b, c);
    ReachesOn(t, a, c);
  }

  // ---- notifyChanged, step by step ----

  function KeysOf(ks: seq<Key>): set<Key> { set k | k in ks }

  /** With these keys sent and those dropped. */
  function Notified(s: State, sent: seq<Key>, dropped: set<Key>): State {
    s.(toNotify := s.toNotify - KeysOf(sent) - dropped, channel := s.channel + sent, dropped := s.dropped + dropped)
  }

  ghost predicate NotifiesOnly(es: seq<Event>) { forall e :: e in es ==> e.Notifies? }

  lemma {:induction false} SendsAll(s: State, sent: seq<Key>) returns (es: seq<Event>)
    requires KeysOf(sent) <= s.toNotify && NoRepeats(sent) && |s.channel| + |sent| <= s.capacity
    ensures IsRun(s, es, Notified(s, sent, {})) && NotifiesOnly(es)
    decreases |sent|
  {
    if sent == [] {
      es := [];
      assert Notified(s, [], {}) == s;
    } else {
      var k, more := sent[0], sent[1..];
      assert k in KeysOf(sent) && KeysOf(sent) == {k} + KeysOf(more) && k !in more;
      var t := s.(toNotify := s.toNotify - {k}, channel := s.channel + [k]);
      var rest := SendsAll(t, more);
      assert Notified(t, more, {}) == Notified(s, sent, {});
      StepThenRun(s, Notifies(k), rest, Notified(s, sent, {}));
      es := [Notifies(k)] + rest;
    }
  }

  lemma {:induction false} DropsAll(s: State, dropped: set<Key>) returns (es: seq<Event>)
    requires dropped <= s.toNotify && |s.channel| >= s.capacity
    ensures IsRun(s, es, Notified(s, [], dropped)) && NotifiesOnly(es)
    decreases |dropped|
  {
    if dropped == {} {
      es := [];
      assert Notified(s, [], {}) == s;
    } else {
      var k :| k in dropped;
      var t := s.(toNotify := s.toNotify - {k}, dropped := s.dropped + {k});
      var rest := DropsAll(t, dropped - {k});
      assert Notified(t, [], dropped - {k}) == Notified(s, [], dropped);
      StepThenRun(s, Notifies(k), rest, Notified(s, [], dropped));
      es := [Notifies(k)] + rest;
    }
  }

  /**
   * What notifyChanged promises of its channel is what its steps here do: whatever it reports as sent
   * and as dropped, some run of single notifications leaves exactly that in the channel and in the
   * dropped set, with nobody left to notify.
   */
  lemma NotifyChangedIsARun(s: State, sent: seq<Key>, dropped: set<Key>) returns (es: seq<Event>)
    requires NoRepeats(sent) && KeysOf(sent) !! dropped && KeysOf(sent) + dropped == s.toNotify
    requires |s.channel + sent| <= s.capacity && (dropped != {} ==> |s.channel + sent| == s.capacity)
    ensures IsRun(s, es, Notified(s, sent, dropped)) && NotifiesOnly(es) && Notified(s, sent, dropped).toNotify == {}
  {
    es := SendsAll(s, sent);
    if dropped != {} {
      var m := Notified(s, sent, {});
      var more := DropsAll(m, dropped);
      assert Notified(m, [], dropped) == Notified(s, sent, dropped);
      RunThenRun(s, es, m, more, Notified(s, sent, dropped));
      es := es + more;
    }
  }

  lemma {:induction false} RunThenRun(s: State, es: seq<Event>, m: State, fs: seq<Event>, t: State)
    requires IsRun(s, es, m) && IsRun(m, fs, t)
    ensures IsRun(s, es + fs, t)
    decreases |es|
  {
    if es == [] {
      assert es + fs == fs;
    } else {
      RunThenRun(Apply(s, es[0]), es[1..], m, fs, t);
      StepThenRun(s, es[0], es[1..] + fs, t);
      assert es + fs == [es[0]] + (es[1..] + fs);
    }
  }

  // ---- A whole run that strands a status ----

  /** One route, reported and queued, when its replica is elected with a channel full of other keys. */
  function Elected(k: Key, other: Key, capacity: nat, obj: Object, d: Decision): State {
    State(map[k := obj], map[k := obj], obj.version,
      map[k := d], {}, seq(capacity, _ => other), capacity, {}, {k}, map[])
  }

  function Serving(database: Str, endpoint: Str): Decision { Decision(database, true, NO_NAME, endpoint, None) }

  /** An object whose status reports d. */
  function Reported(route: PostgresRoute, d: Decision): Object {
    Object(route, 1, false, Desired(RouteStatus(0, [], [], [], []), ProjectionOf(1, d), 0), 0)
  }

  function StrandingRun(k: Key, d: Decision): seq<Event> {
    [Begins(k)] + ([LoadsDecision(k)] + ([Finishes(k, Written, 0)] + ([Publishes(map[k := d])] + [Notifies(k)])))
  }

  lemma StepThenRun(s: State, e: Event, es: seq<Event>, t: State)
    requires Enabled(s, e) && IsRun(Apply(s, e), es, t)
    ensures IsRun(s, [e] + es, t)
  {
    assert ([e] + es)[1..] == es;
  }

  lemma OneStep(s: State, e: Event)
    requires Enabled(s, e)
    ensures IsRun(s, [e], Apply(s, e))
  {
    assert IsRun(Apply(s, e), [], Apply(s, e));
    StepThenRun(s, e, [], Apply(s, e));
    assert [e] + [] == [e];
  }

  lemma QuietFinish(s: State, k: Key, obj: Object, d: Decision)
    requires s.active == map[k := Loaded(obj, d)] && k in s.api && UniqueTypes(obj.status.conditions)
    requires Reports(obj.status, ProjectionOf(obj.generation, d))
    ensures Finish(s, k, Written, 0) == s.(active := map[])
  {
    WritesExactlyWhenStale(obj.status, ProjectionOf(obj.generation, d), 0);
    assert s.active - {k} == map[];
  }

  /** The reconcile of a reported status writes nothing and ends. */
  lemma QuietReconcile(s: State, k: Key, obj: Object, d: Decision, es: seq<Event>, t: State)
    requires s.queue == {k} && s.active == map[] && s.dropped == {}
    requires s.cache == map[k := obj] && s.decisions == map[k := d]
    requires !obj.deleting && k in s.api && UniqueTypes(obj.status.conditions)
    requires Reports(obj.status, ProjectionOf(obj.generation, d))
    requires IsRun(s.(queue := {}), es, t)
    ensures IsRun(s, [Begins(k)] + ([LoadsDecision(k)] + ([Finishes(k, Written, 0)] + es)), t)
  {
    var s1 := s.(queue := {}, active := map[k := Got(obj)]);
    var s2 := s1.(active := map[k := Loaded(obj, d)]);
    QuietFinish(s2, k, obj, d);
    assert s2.(active := map[]) == s.(queue := {});
    var more := [Finishes(k, Written, 0)] + es;
    StepThenRun(s2, Finishes(k, Written, 0), es, t);
    BeginAndLoad(s, k, obj, d, more, t);
  }

  lemma BeginAndLoad(s: State, k: Key, obj: Object, d: Decision, es: seq<Event>, t: State)
    requires s.queue == {k} && s.active == map[] && s.dropped == {}
    requires s.cache == map[k := obj] && s.decisions == map[k := d]
    requires !obj.deleting && IsRun(s.(queue := {}, active := map[k := Loaded(obj, d)]), es, t)
    ensures IsRun(s, [Begins(k)] + ([LoadsDecision(k)] + es), t)
  {
    var s1 := s.(queue := {}, active := map[k := Got(obj)]);
    LoadStep(s1, k, obj, d, es, t);
    assert s.queue - {k} == {};
    assert Begin(s, k) == s1;
    StepThenRun(s, Begins(k), [LoadsDecision(k)] + es, t);
  }

  lemma LoadStep(s: State, k: Key, obj: Object, d: Decision, es: seq<Event>, t: State)
    requires s.active == map[k := Got(obj)] && s.dropped == {} && s.decisions == map[k := d]
    requires IsRun(s.(active := map[k := Loaded(obj, d)]), es, t)
    ensures IsRun(s, [LoadsDecision(k)] + es, t)
  {
    LoadOf(s, k, obj, d);
    StepThenRun(s, LoadsDecision(k), es, t);
  }

  lemma LoadOf(s: State, k: Key, obj: Object, d: Decision)
    requires s.active == map[k := Got(obj)] && s.dropped == {} && s.decisions == map[k := d]
    ensures Enabled(s, LoadsDecision(k)) && Apply(s, LoadsDecision(k)) == s.(active := map[k := Loaded(obj, d)])
  {
    assert s.active[k := Loaded(obj, d)] == map[k := Loaded(obj, d)];
    assert s.dropped - {k} == {};
  }

  /** The new decision is published, and its event finds the channel full. */
  lemma DroppedPublish(s: State, k: Key, before: Decision, after: Decision)
    requires s.toNotify == {} && s.dropped == {} && s.decisions == map[k := before] && |s.channel| == s.capacity
    requires BuildShaped(after) && DecisionChanged(before, after)
    ensures IsRun(s, [Publishes(map[k := after])] + [Notifies(k)], s.(decisions := map[k := after], dropped := {k}))
  {
    var ds := map[k := after];
    assert Affected(s.decisions, ds) == {k};
    var s1 := s.(decisions := ds, toNotify := {k});
    assert Apply(s, Publishes(ds)) == s1;
    assert Apply(s1, Notifies(k)) == s.(decisions := ds, dropped := {k});
    OneStep(s1, Notifies(k));
    StepThenRun(s, Publishes(ds), [Notifies(k)], s.(decisions := ds, dropped := {k}));
  }

  /**
   * From a start state, whatever the capacity: the route's endpoint moves from a to b, the drop
   * leaves its status at a, and nothing that could correct it is pending.
   */
  lemma DropStrandsFromStart(route: PostgresRoute, other: Key, capacity: nat, database: Str, a: Str, b: Str)
    requires route.Key() != other && capacity > 0 && a != [] && b != [] && a != b
    ensures var k := route.Key();
      var s := Elected(k, other, capacity, Reported(route, Serving(database, a)), Serving(database, a));
      var t := s.(queue := {}, decisions := map[k := Serving(database, b)], dropped := {k});
      && Init(s) && IsRun(s, StrandingRun(k, Serving(database, b)), t)
      && Live(t, k) && !UpToDate(t, k) && Idle(t, k) && t.api[k].status.endpoint == a
  {
    var k, before, after := route.Key(), Serving(database, a), Serving(database, b);
    var obj := Reported(route, before);
    DesiredReports(RouteStatus(0, [], [], [], []), ProjectionOf(1, before), 0);
    var s := Elected(k, other, capacity, obj, before);
    DroppedPublish(s.(queue := {}), k, before, after);
    var t := s.(queue := {}, decisions := map[k := after], dropped := {k});
    QuietReconcile(s, k, obj, before, [Publishes(map[k := after])] + [Notifies(k)], t);
  }
}
