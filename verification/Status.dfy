/** The status a routing decision is reported as, and the reconcile that writes it. */
module Status {
  import opened Bytes
  import opened Api
  import opened Resolver
  import opened Registry
  import opened Notify

  datatype ConditionType = Accepted | Resolved | Programmed | Foreign(name: Str)
  datatype ConditionStatus = True | False | Unknown
  datatype Reason =
    | ReasonAccepted | ReasonDatabaseConflict
    | ReasonResolved | ReasonBackendNotFound | ReasonPortNotFound | ReasonInvalidBackend | ReasonCABundleFailed
    | ReasonProgrammed | ReasonNotProgrammed
    | ForeignReason(name: Str)

  /** A condition's message: which sentence it is, and what fills it. */
  datatype Note =
    | OwnsName(database: Str) | ClaimedBy(database: Str, winner: Str)
    | NotResolved | Failed(error: ErrorText) | ResolvedTo(endpoint: Str)
    | RoutedTo(database: Str, endpoint: Str) | NotRouted
    | ForeignNote(text: Str)

  /** What a condition says; `since` in Condition is its transition time. */
  datatype Claim = Claim(status: ConditionStatus, reason: Reason, message: Note, observedGeneration: int)
  datatype Condition = Condition(kind: ConditionType, claim: Claim, since: int)

  datatype RouteStatus = RouteStatus(
    observedGeneration: int, database: Str, endpoint: Str, conflictingRoute: Str, conditions: seq<Condition>)

  // ---- Condition lists (meta.FindStatusCondition, meta.SetStatusCondition) ----

  function IndexOf(cs: seq<Condition>, kind: ConditionType): (i: nat)
    ensures i <= |cs|
    ensures i < |cs| ==> cs[i].kind == kind
    ensures forall j :: 0 <= j < i ==> cs[j].kind != kind
  {
    if cs == [] || cs[0].kind == kind then 0 else 1 + IndexOf(cs[1..], kind)
  }

  function Find(cs: seq<Condition>, kind: ConditionType): Option<Claim> {
    var i := IndexOf(cs, kind);
    if i < |cs| then Some(cs[i].claim) else None
  }

  function WithCondition(cs: seq<Condition>, kind: ConditionType, claim: Claim, now: int): seq<Condition> {
    var i := IndexOf(cs, kind);
    if i == |cs| then cs + [Condition(kind, claim, now)]
    else cs[i := Condition(kind, claim, if cs[i].claim.status == claim.status then cs[i].since else now)]
  }

  ghost predicate UniqueTypes(cs: seq<Condition>) {
    forall i, j :: 0 <= i < j < |cs| ==> cs[i].kind != cs[j].kind
  }

  lemma IndexIs(cs: seq<Condition>, kind: ConditionType, i: nat)
    requires i <= |cs| && (i < |cs| ==> cs[i].kind == kind)
    requires forall j :: 0 <= j < i ==> cs[j].kind != kind
    ensures IndexOf(cs, kind) == i
  {}

  lemma FindAfterSet(cs: seq<Condition>, kind: ConditionType, claim: Claim, now: int, k: ConditionType)
    ensures Find(WithCondition(cs, kind, claim, now), k) == if k == kind then Some(claim) else Find(cs, k)
    ensures UniqueTypes(cs) ==> UniqueTypes(WithCondition(cs, kind, claim, now))
    ensures |WithCondition(cs, kind, claim, now)| == if Find(cs, kind).Some? then |cs| else |cs| + 1
  {
    var out := WithCondition(cs, kind, claim, now);
    var n := IndexOf(cs, kind);
    if k == kind {
      IndexIs(out, k, n);
    } else {
      var i := IndexOf(cs, k);
      IndexIs(out, k, if i == |cs| then |out| else i);
    }
  }

  /** Saying again what a list already says changes nothing, not even the transition time. */
  lemma SetIsIdempotent(cs: seq<Condition>, kind: ConditionType, claim: Claim, now: int)
    requires Find(cs, kind) == Some(claim)
    ensures WithCondition(cs, kind, claim, now) == cs
  {}

  // ---- What a decision projects to ----

  function FailureReason(e: ResolveError): Reason {
    if BackendNotFound in e.classes || ApiNotFound in e.classes then ReasonBackendNotFound
    else if PortNotFound in e.classes then ReasonPortNotFound
    else if CABundle in e.classes then ReasonCABundleFailed
    else ReasonInvalidBackend
  }

  function AcceptedClaim(gen: int, d: Decision): Claim {
    if d.accepted then Claim(True, ReasonAccepted, OwnsName(d.database), gen)
    else Claim(False, ReasonDatabaseConflict, ClaimedBy(d.database, d.conflictsWith.Show()), gen)
  }

  function ResolvedClaim(gen: int, d: Decision): Claim {
    if !d.accepted then Claim(False, ReasonDatabaseConflict, NotResolved, gen)
    else match d.resolveErr
      case Some(e) => Claim(False, FailureReason(e), Failed(e.text), gen)
      case None => Claim(True, ReasonResolved, ResolvedTo(d.endpoint), gen)
  }

  function ProgrammedClaim(gen: int, d: Decision): Claim {
    if d.Programmed() then Claim(True, ReasonProgrammed, RoutedTo(d.database, d.endpoint), gen)
    else Claim(False, ReasonNotProgrammed, NotRouted, gen)
  }

  /** The part of a status that the controller owns. */
  datatype Projection = Projection(
    observedGeneration: int, database: Str, endpoint: Str, conflictingRoute: Str,
    accepted: Claim, resolved: Claim, programmed: Claim)

  function ProjectionOf(gen: int, d: Decision): Projection {
    Projection(gen, d.database,
      if d.accepted then d.endpoint else [],
      if d.accepted then [] else d.conflictsWith.Show(),
      AcceptedClaim(gen, d), ResolvedClaim(gen, d), ProgrammedClaim(gen, d))
  }

  predicate Reports(s: RouteStatus, p: Projection) {
    && s.observedGeneration == p.observedGeneration
    && s.database == p.database
    && s.endpoint == p.endpoint
    && s.conflictingRoute == p.conflictingRoute
    && Find(s.conditions, Accepted) == Some(p.accepted)
    && Find(s.conditions, Resolved) == Some(p.resolved)
    && Find(s.conditions, Programmed) == Some(p.programmed)
  }

  function SetAll(cs: seq<Condition>, p: Projection, now: int): seq<Condition> {
    WithCondition(WithCondition(WithCondition(cs,
      Accepted, p.accepted, now), Resolved, p.resolved, now), Programmed, p.programmed, now)
  }

  /** The status Reconcile wants, starting from the recorded one. */
  function Desired(s: RouteStatus, p: Projection, now: int): RouteStatus {
    RouteStatus(p.observedGeneration, p.database, p.endpoint, p.conflictingRoute, SetAll(s.conditions, p, now))
  }

  predicate EqualStatus(a: RouteStatus, b: RouteStatus) {
    && a.observedGeneration == b.observedGeneration
    && a.database == b.database
    && a.endpoint == b.endpoint
    && a.conflictingRoute == b.conflictingRoute
    && |a.conditions| == |b.conditions|
    && forall i :: 0 <= i < |b.conditions| ==> Find(a.conditions, b.conditions[i].kind) == Some(b.conditions[i].claim)
  }

  // ---- The reconcile, in place ----

  class StatusObject {
    var status: RouteStatus

    constructor (s: RouteStatus)
      ensures status == s
    {
      status := s;
    }

    method SetCondition(kind: ConditionType, claim: Claim, now: int)
      modifies this
      ensures status == old(status).(conditions := WithCondition(old(status.conditions), kind, claim, now))
    {
      for i := 0 to |status.conditions|
        invariant status == old(status)
        invariant forall j :: 0 <= j < i ==> status.conditions[j].kind != kind
      {
        if status.conditions[i].kind == kind {
          IndexIs(status.conditions, kind, i);
          var since := if status.conditions[i].claim.status != claim.status then now else status.conditions[i].since;
          status := status.(conditions := status.conditions[i := Condition(kind, claim, since)]);
          return;
        }
      }
      IndexIs(status.conditions, kind, |status.conditions|);
      status := status.(conditions := status.conditions + [Condition(kind, claim, now)]);
    }

    /** applyConditions: also records the winner, and clears the endpoint, of a rejected route. */
    method ApplyConditions(gen: int, d: Decision, now: int)
      modifies this
      ensures status == old(status).(
        conflictingRoute := if d.accepted then old(status.conflictingRoute) else d.conflictsWith.Show(),
        endpoint := if d.accepted then old(status.endpoint) else [],
        conditions := SetAll(old(status.conditions), ProjectionOf(gen, d), now))
    {
      if d.accepted {
        SetCondition(Accepted, AcceptedClaim(gen, d), now);
      } else {
        status := status.(conflictingRoute := d.conflictsWith.Show(), endpoint := []);
        SetCondition(Accepted, AcceptedClaim(gen, d), now);
      }
      SetCondition(Resolved, ResolvedClaim(gen, d), now);
      SetCondition(Programmed, ProgrammedClaim(gen, d), now);
    }
  }

  method StatusesEqual(a: RouteStatus, b: RouteStatus) returns (eq: bool)
    ensures eq == EqualStatus(a, b)
  {
    if a.observedGeneration != b.observedGeneration || a.database != b.database || a.endpoint != b.endpoint
      || a.conflictingRoute != b.conflictingRoute || |a.conditions| != |b.conditions|
    {
      return false;
    }
    for i := 0 to |b.conditions|
      invariant forall j :: 0 <= j < i ==> Find(a.conditions, b.conditions[j].kind) == Some(b.conditions[j].claim)
    {
      var got := Find(a.conditions, b.conditions[i].kind);
      if got != Some(b.conditions[i].claim) { return false; }
    }
    return true;
  }

  /** Reconcile of a live route whose decision is known: whether it writes, and what. */
  method Reconcile(recorded: RouteStatus, gen: int, d: Decision, now: int)
    returns (write: bool, desired: RouteStatus)
    ensures desired == Desired(recorded, ProjectionOf(gen, d), now)
    ensures Reports(desired, ProjectionOf(gen, d))
    ensures write <==> !EqualStatus(recorded, desired)
    ensures var p := ProjectionOf(gen, d); write <==> !(Reports(recorded, p) && LaterOnesAgree(recorded.conditions, p))
  {
    var working := new StatusObject(recorded.(
      observedGeneration := gen, database := d.database, endpoint := d.endpoint, conflictingRoute := []));
    working.ApplyConditions(gen, d, now);
    desired := working.status;
    var same := StatusesEqual(recorded, desired);
    write := !same;
    DesiredReports(recorded, ProjectionOf(gen, d), now);
    WritesExactlyWhenStale(recorded, ProjectionOf(gen, d), now);
  }

  // ---- Properties ----

  lemma FindAfterSetAll(cs: seq<Condition>, p: Projection, now: int, k: ConditionType)
    ensures Find(SetAll(cs, p, now), k) == match k
      case Accepted => Some(p.accepted)
      case Resolved => Some(p.resolved)
      case Programmed => Some(p.programmed)
      case Foreign(_) => Find(cs, k)
    ensures UniqueTypes(cs) ==> UniqueTypes(SetAll(cs, p, now))
    ensures |SetAll(cs, p, now)| >= |cs|
    ensures |SetAll(cs, p, now)| == |cs| <==>
      Find(cs, Accepted).Some? && Find(cs, Resolved).Some? && Find(cs, Programmed).Some?
  {
    var c1 := WithCondition(cs, Accepted, p.accepted, now);
    var c2 := WithCondition(c1, Resolved, p.resolved, now);
    FindAfterSet(cs, Accepted, p.accepted, now, k);
    FindAfterSet(cs, Accepted, p.accepted, now, Resolved);
    FindAfterSet(cs, Accepted, p.accepted, now, Programmed);
    FindAfterSet(c1, Resolved, p.resolved, now, k);
    FindAfterSet(c1, Resolved, p.resolved, now, Programmed);
    FindAfterSet(c2, Programmed, p.programmed, now, k);
  }

  /** Conditions of other types stay where they are, down to their transition times. */
  lemma ForeignConditionsStay(cs: seq<Condition>, p: Projection, now: int, i: nat)
    requires i < |cs| && cs[i].kind.Foreign?
    ensures i < |SetAll(cs, p, now)| && SetAll(cs, p, now)[i] == cs[i]
  {
    var c1 := WithCondition(cs, Accepted, p.accepted, now);
    assert c1[i] == cs[i];
    var c2 := WithCondition(c1, Resolved, p.resolved, now);
    assert c2[i] == cs[i];
  }

  /** Whatever was recorded, the desired status reports the decision. */
  lemma DesiredReports(s: RouteStatus, p: Projection, now: int)
    ensures Reports(Desired(s, p, now), p)
    ensures UniqueTypes(s.conditions) ==> UniqueTypes(Desired(s, p, now).conditions)
  {
    FindAfterSetAll(s.conditions, p, now, Accepted);
    FindAfterSetAll(s.conditions, p, now, Resolved);
    FindAfterSetAll(s.conditions, p, now, Programmed);
  }

  /** What a reconciled list says of a type: the projection for the owned ones, else what it said. */
  function ClaimFor(cs: seq<Condition>, p: Projection, k: ConditionType): Option<Claim> {
    match k
    case Accepted => Some(p.accepted)
    case Resolved => Some(p.resolved)
    case Programmed => Some(p.programmed)
    case Foreign(_) => Find(cs, k)
  }

  /** Every condition behind the first of its type says what that first one will say. */
  ghost predicate LaterOnesAgree(cs: seq<Condition>, p: Projection) {
    forall j :: 0 <= j < |cs| && IndexOf(cs, cs[j].kind) < j ==> ClaimFor(cs, p, cs[j].kind) == Some(cs[j].claim)
  }

  lemma UniqueTypesAgree(cs: seq<Condition>, p: Projection)
    requires UniqueTypes(cs)
    ensures LaterOnesAgree(cs, p)
  {}

  /** Setting a condition moves nothing: other places keep their content, and the first of a type stays it. */
  lemma PlacesStay(cs: seq<Condition>, kind: ConditionType, claim: Claim, now: int, k: ConditionType)
    ensures var out := WithCondition(cs, kind, claim, now);
      && |out| >= |cs|
      && (IndexOf(cs, k) < |cs| ==> IndexOf(out, k) == IndexOf(cs, k))
      && (forall j :: 0 <= j < |cs| && j != IndexOf(cs, kind) ==> out[j] == cs[j])
      && (|out| > |cs| ==> |out| == |cs| + 1 && IndexOf(cs, kind) == |cs| && IndexOf(out, out[|cs|].kind) == |cs|)
  {
    var out := WithCondition(cs, kind, claim, now);
    if IndexOf(cs, k) < |cs| { IndexIs(out, k, IndexOf(cs, k)); }
    if |out| > |cs| { IndexIs(out, kind, |cs|); }
  }

  /** Setting an owned condition neither mends nor breaks the agreement of the later ones. */
  lemma AgreementStays(cs: seq<Condition>, p: Projection, kind: ConditionType, claim: Claim, now: int)
    requires !kind.Foreign?
    ensures LaterOnesAgree(WithCondition(cs, kind, claim, now), p) <==> LaterOnesAgree(cs, p)
  {
    var out := WithCondition(cs, kind, claim, now);
    forall j | 0 <= j < |cs| && IndexOf(cs, cs[j].kind) < j
      ensures out[j] == cs[j] && IndexOf(out, out[j].kind) < j
      ensures ClaimFor(out, p, cs[j].kind) == ClaimFor(cs, p, cs[j].kind)
    {
      PlacesStay(cs, kind, claim, now, cs[j].kind);
      FindAfterSet(cs, kind, claim, now, cs[j].kind);
    }
    forall j | 0 <= j < |out| && IndexOf(out, out[j].kind) < j ensures j < |cs| && IndexOf(cs, cs[j].kind) < j {
      PlacesStay(cs, kind, claim, now, kind);
      if j < |cs| { PlacesStay(cs, kind, claim, now, cs[j].kind); }
    }
  }

  /** Comparing a reporting status with itself: only conditions behind the first of a type can differ. */
  lemma SelfEqual(s: RouteStatus, p: Projection)
    requires Reports(s, p)
    ensures EqualStatus(s, s) <==> LaterOnesAgree(s.conditions, p)
  {
    forall j | 0 <= j < |s.conditions|
      ensures Find(s.conditions, s.conditions[j].kind) == ClaimFor(s.conditions, p, s.conditions[j].kind)
      ensures IndexOf(s.conditions, s.conditions[j].kind) <= j
    {}
  }

  /** A status that reports the decision is left alone, transition times included. */
  lemma ReportingIsFixed(s: RouteStatus, p: Projection, now: int)
    requires Reports(s, p)
    ensures Desired(s, p, now) == s
  {
    SetIsIdempotent(s.conditions, Accepted, p.accepted, now);
    SetIsIdempotent(s.conditions, Resolved, p.resolved, now);
    SetIsIdempotent(s.conditions, Programmed, p.programmed, now);
  }

  /**
   * A reconcile leaves a status unwritten exactly when it reports the decision and the conditions
   * behind the first of their type agree; with one condition a type, exactly when it reports.
   */
  lemma WritesExactlyWhenStale(s: RouteStatus, p: Projection, now: int)
    ensures EqualStatus(s, Desired(s, p, now)) <==> Reports(s, p) && LaterOnesAgree(s.conditions, p)
    ensures UniqueTypes(s.conditions) ==> (EqualStatus(s, Desired(s, p, now)) <==> Reports(s, p))
  {
    DesiredReports(s, p, now);
    if EqualStatus(s, Desired(s, p, now)) {
      SaidBy(s, Desired(s, p, now), Accepted);
      SaidBy(s, Desired(s, p, now), Resolved);
      SaidBy(s, Desired(s, p, now), Programmed);
    }
    if Reports(s, p) {
      ReportingIsFixed(s, p, now);
      SelfEqual(s, p);
      if UniqueTypes(s.conditions) { UniqueTypesAgree(s.conditions, p); }
    }
  }

  lemma SaidBy(s: RouteStatus, d: RouteStatus, k: ConditionType)
    requires EqualStatus(s, d) && Find(d.conditions, k).Some?
    ensures Find(s.conditions, k) == Find(d.conditions, k)
  {
    assert d.conditions[IndexOf(d.conditions, k)].kind == k;
  }

  /**
   * Reconciling again changes nothing. It writes nothing exactly when, in the status recorded before
   * the first reconcile, every condition behind the first of its type says what that one will say.
   */
  lemma SecondReconcile(s: RouteStatus, p: Projection, now: int, later: int)
    ensures var once := Desired(s, p, now);
      && Desired(once, p, later) == once
      && (EqualStatus(once, Desired(once, p, later)) <==> LaterOnesAgree(s.conditions, p))
      && (UniqueTypes(s.conditions) ==> EqualStatus(once, Desired(once, p, later)))
  {
    DesiredReports(s, p, now);
    var once := Desired(s, p, now);
    ReportingIsFixed(once, p, later);
    SelfEqual(once, p);
    var c1 := WithCondition(s.conditions, Accepted, p.accepted, now);
    AgreementStays(s.conditions, p, Accepted, p.accepted, now);
    AgreementStays(c1, p, Resolved, p.resolved, now);
    AgreementStays(WithCondition(c1, Resolved, p.resolved, now), p, Programmed, p.programmed, now);
    if UniqueTypes(s.conditions) { UniqueTypesAgree(s.conditions, p); }
  }

  /** With a condition behind the first of its type that says something else, every reconcile writes. */
  lemma DisagreeingDuplicatesNeverSettle(s: RouteStatus, p: Projection, now: int, later: int, j: nat)
    requires j < |s.conditions| && IndexOf(s.conditions, s.conditions[j].kind) < j
    requires ClaimFor(s.conditions, p, s.conditions[j].kind) != Some(s.conditions[j].claim)
    ensures var once := Desired(s, p, now);
      !EqualStatus(s, once) && !EqualStatus(once, Desired(once, p, later)) && Desired(once, p, later) == once
  {
    assert !LaterOnesAgree(s.conditions, p);
    SecondReconcile(s, p, now, later);
    WritesExactlyWhenStale(s, p, now);
  }

  function TwoConditions(kind: ConditionType, a: Claim, b: Claim): RouteStatus {
    RouteStatus(0, [], [], [], [Condition(kind, a, 0), Condition(kind, b, 0)])
  }

  /** Such as a second Accepted condition that does not say what the decision does. */
  lemma OwnedDuplicateNeverSettles(p: Projection, other: Claim, now: int, later: int)
    requires other != p.accepted
    ensures var s := TwoConditions(Accepted, p.accepted, other);
      var once := Desired(s, p, now);
      !EqualStatus(s, once) && !EqualStatus(once, Desired(once, p, later)) && Desired(once, p, later) == once
  {
    DisagreeingDuplicatesNeverSettle(TwoConditions(Accepted, p.accepted, other), p, now, later, 1);
  }

  /** Or two disagreeing conditions of a type the controller does not own. */
  lemma ForeignDuplicateNeverSettles(p: Projection, name: Str, a: Claim, b: Claim, now: int, later: int)
    requires a != b
    ensures var s := TwoConditions(Foreign(name), a, b);
      var once := Desired(s, p, now);
      !EqualStatus(s, once) && !EqualStatus(once, Desired(once, p, later)) && Desired(once, p, later) == once
  {
    DisagreeingDuplicatesNeverSettle(TwoConditions(Foreign(name), a, b), p, now, later, 1);
  }

  /** Programmed is True exactly when Accepted and Resolved both are. */
  lemma ConditionsCohere(gen: int, d: Decision)
    ensures var p := ProjectionOf(gen, d);
      && (p.programmed.status == True <==> p.accepted.status == True && p.resolved.status == True)
      && (p.accepted.status == False ==> p.endpoint == [] && p.resolved.reason == ReasonDatabaseConflict)
      && (p.accepted.status == True ==> p.conflictingRoute == [])
  {}

  predicate Says(s: RouteStatus, kind: ConditionType) {
    Find(s.conditions, kind).Some? && Find(s.conditions, kind).value.status == True
  }

  /**
   * What a status says, against the table: who won the name, whether connections are routed and
   * where to, and otherwise which route is in the way or what failed and for which reason.
   */
  ghost predicate TellsTheTruth(routes: set<PostgresRoute>, rv: Answers, table: map<Str, Route>,
                                r: PostgresRoute, gen: int, s: RouteStatus) {
    var d := r.EffectiveDatabase();
    && s.database == d && s.observedGeneration == gen
    && (Says(s, Accepted) <==> IsWinner(routes, r))
    && (Says(s, Resolved) <==> IsWinner(routes, r) && rv(r).Ok?)
    && (Says(s, Programmed) <==> d in table && table[d].source == r.Key())
    && (Says(s, Programmed) ==> s.endpoint == table[d].Address())
    && (!Says(s, Programmed) ==> s.endpoint == [])
    && (forall k :: k == Accepted || k == Resolved || k == Programmed ==>
          Find(s.conditions, k).Some? && Find(s.conditions, k).value.observedGeneration == gen)
    && (if IsWinner(routes, r) then TellsOfWinner(d, rv(r), s) else TellsOfLoser(routes, r, s))
  }

  /** The condition of this type says just that. */
  predicate Tells(s: RouteStatus, kind: ConditionType, status: ConditionStatus, reason: Reason, message: Note) {
    var found := Find(s.conditions, kind);
    found.Some? && found.value.status == status && found.value.reason == reason && found.value.message == message
  }

  predicate TellsOfWinner(d: Str, answer: Result<Route, ResolveError>, s: RouteStatus) {
    && s.conflictingRoute == [] && Tells(s, Accepted, True, ReasonAccepted, OwnsName(d))
    && match answer
      case Ok(route) =>
        && Tells(s, Resolved, True, ReasonResolved, ResolvedTo(route.Address()))
        && Tells(s, Programmed, True, ReasonProgrammed, RoutedTo(d, route.Address()))
      case Err(e) =>
        && Tells(s, Resolved, False, FailureReason(e), Failed(e.text))
        && Tells(s, Programmed, False, ReasonNotProgrammed, NotRouted)
  }

  ghost predicate TellsOfLoser(routes: set<PostgresRoute>, r: PostgresRoute, s: RouteStatus) {
    && (exists w :: Beats(routes, w, r) && LosesTo(s, r.EffectiveDatabase(), r.Key(), w.Key()))
    && Tells(s, Resolved, False, ReasonDatabaseConflict, NotResolved)
    && Tells(s, Programmed, False, ReasonNotProgrammed, NotRouted)
  }

  predicate LosesTo(s: RouteStatus, d: Str, loser: NamespacedName, winner: NamespacedName) {
    && winner != loser && s.conflictingRoute == winner.Show()
    && Tells(s, Accepted, False, ReasonDatabaseConflict, ClaimedBy(d, winner.Show()))
  }

  /** A status that reports its decision tells the truth about the table. */
  lemma StatusTellsTheTruth(routes: set<PostgresRoute>, rv: Answers, snapshot: Snapshot,
                            r: PostgresRoute, gen: int, s: RouteStatus)
    requires UniqueKeys(routes) && MeetsSpec(routes, rv, snapshot) && Faithful(rv) && r in routes
    requires Reports(s, ProjectionOf(gen, snapshot.decisions[r.Key()]))
    ensures TellsTheTruth(routes, rv, snapshot.table, r, gen, s)
  {
    var d := snapshot.decisions[r.Key()];
    assert DecidesRoute(routes, rv, r, d);
    ProgrammedMeansServing(routes, rv, snapshot, r);
    if IsWinner(routes, r) {
      RoutableExactlyWhenWinnerResolved(routes, rv, snapshot, r);
      WinnerIsTold(gen, r, rv(r), s);
    } else {
      var w :| Beats(routes, w, r) && d == RejectedDecision(r, w.Key());
      WinnerIsUniqueKey(routes, w, r);
      LoserIsTold(gen, r, w.Key(), s);
    }
  }

  lemma WinnerIsTold(gen: int, r: PostgresRoute, answer: Result<Route, ResolveError>, s: RouteStatus)
    requires Reports(s, ProjectionOf(gen, AcceptedDecision(r, answer)))
    ensures TellsOfWinner(r.EffectiveDatabase(), answer, s)
  {}

  lemma LoserIsTold(gen: int, r: PostgresRoute, winner: NamespacedName, s: RouteStatus)
    requires winner != r.Key() && Reports(s, ProjectionOf(gen, RejectedDecision(r, winner)))
    ensures LosesTo(s, r.EffectiveDatabase(), r.Key(), winner)
    ensures Tells(s, Resolved, False, ReasonDatabaseConflict, NotResolved)
    ensures Tells(s, Programmed, False, ReasonNotProgrammed, NotRouted)
  {}

  // ---- Unchanged decisions project alike ----

  /** The status reason an error message stands for. */
  function ReasonOfText(t: ErrorText): Reason {
    match t
    case ServiceNotFound(_) => ReasonBackendNotFound
    case NumberedPortMissing(_, _, wraps) => if wraps then ReasonPortNotFound else ReasonInvalidBackend
    case NamedPortMissing(_, _) => ReasonPortNotFound
    case CABundleUnavailable(cause) => if cause.SecretNotFound? then ReasonBackendNotFound else ReasonCABundleFailed
    case _ => ReasonInvalidBackend
  }

  predicate Legible(e: ResolveError) { FailureReason(e) == ReasonOfText(e.text) }

  ghost predicate LegibleAnswers(rv: Answers) {
    forall r :: rv(r).Err? ==> Legible(rv(r).error)
  }

  /** Two failures with one message are reported for one reason. */
  lemma ClusterAnswersAreLegible(c: Cluster)
    ensures LegibleAnswers(AnswersFrom(c))
  {
    forall r | AnswersFrom(c)(r).Err? ensures Legible(AnswersFrom(c)(r).error) {
      assert AnswersFrom(c)(r) == Resolve(r, c);
      ReasonFollowsText(r, c);
    }
  }

  lemma ReasonFollowsText(r: PostgresRoute, c: Cluster)
    ensures ResolveBackend(r, c).Err? ==> Legible(ResolveBackend(r, c).error)
    ensures ResolveTLS(r, c).Err? ==> Legible(ResolveTLS(r, c).error)
    ensures Resolve(r, c).Err? ==> Legible(Resolve(r, c).error)
  {
    BackendReasonFollowsText(r, c);
    TLSReasonFollowsText(r, c);
  }

  lemma BackendReasonFollowsText(r: PostgresRoute, c: Cluster)
    ensures ResolveBackend(r, c).Err? ==> Legible(ResolveBackend(r, c).error)
  {}

  lemma TLSReasonFollowsText(r: PostgresRoute, c: Cluster)
    ensures ResolveTLS(r, c).Err? ==> Legible(ResolveTLS(r, c).error)
  {}

  /** The shape of every decision Build makes. */
  predicate BuildShaped(d: Decision) {
    && (d.resolveErr.Some? ==> Legible(d.resolveErr.value))
    && if d.accepted then d.conflictsWith == NO_NAME && (d.endpoint == [] <==> d.resolveErr.Some?)
       else d.endpoint == [] && d.resolveErr.None?
  }

  lemma BuildDecisionsAreShaped(routes: set<PostgresRoute>, rv: Answers, r: PostgresRoute, d: Decision)
    requires DecidesRoute(routes, rv, r, d) && LegibleAnswers(rv)
    ensures BuildShaped(d)
  {
    if IsWinner(routes, r) {
      match rv(r)
      case Ok(route) => assert route.Address() != [];
      case Err(e) =>
    } else {
      var w :| Beats(routes, w, r) && d == RejectedDecision(r, w.Key());
    }
  }

  /** Every decision of a build against a cluster, readable or not, has that shape. */
  lemma BuildIsShaped(routes: seq<PostgresRoute>, c: Cluster)
    requires DistinctKeys(routes)
    ensures forall k :: k in BuildSnapshot(routes, AnswersFrom(c)).decisions ==>
      BuildShaped(BuildSnapshot(routes, AnswersFrom(c)).decisions[k])
  {
    var rv, all := AnswersFrom(c), Elements(routes);
    BuildMeetsSpec(routes, rv);
    ClusterAnswersAreLegible(c);
    var decisions := BuildSnapshot(routes, rv).decisions;
    forall k | k in decisions ensures BuildShaped(decisions[k]) {
      assert k in Keys(all);
      var r :| r in all && r.Key() == k;
      BuildDecisionsAreShaped(all, rv, r, decisions[k]);
    }
  }

  /** A decision notifyChanged skips has a status that needs no rewriting. */
  lemma UnchangedProjectsAlike(gen: int, before: Decision, now: Decision)
    requires BuildShaped(before) && BuildShaped(now)
    requires !DecisionChanged(before, now)
    ensures ProjectionOf(gen, before) == ProjectionOf(gen, now)
  {}

  // ---- How a failure is classified ----

  predicate ServiceRead(r: PostgresRoute, c: Cluster) {
    ServiceOf(r).Some? && ServiceOf(r).value !in c.unreadableServices && ServiceOf(r).value in c.services
  }

  predicate ServiceMissing(r: PostgresRoute, c: Cluster) {
    ServiceOf(r).Some? && ServiceOf(r).value !in c.unreadableServices && ServiceOf(r).value !in c.services
  }

  predicate ServiceReadFails(r: PostgresRoute, c: Cluster) {
    ServiceOf(r).Some? && ServiceOf(r).value in c.unreadableServices
  }

  /** The Service is there, but not the port the route asks for. */
  predicate PortMissing(r: PostgresRoute, c: Cluster) {
    ServiceRead(r, c) && !HasPort(c.services[ServiceOf(r).value], r.spec.backend.service.value.port)
  }

  predicate PortIsString(r: PostgresRoute) { ServiceOf(r).Some? && r.spec.backend.service.value.port.StringRef? }

  /** No backend of the declared type is given. */
  predicate BackendUnspecified(r: PostgresRoute) {
    match r.spec.backend.kind
    case ServiceType => r.spec.backend.service.None?
    case AddressType => r.spec.backend.address.None?
    case UnknownType(_) => true
  }

  predicate BackendUsable(r: PostgresRoute, c: Cluster) {
    !BackendUnspecified(r) && !ServiceMissing(r, c) && !ServiceReadFails(r, c) && !PortMissing(r, c)
  }

  predicate SecretMissing(r: PostgresRoute, c: Cluster) {
    && c.caBundles && CASecretOf(r).Some?
    && CASecretOf(r).value !in c.unreadableSecrets && CASecretOf(r).value !in c.secrets
  }

  /** No CA bundle is needed, or the Secret holds one. */
  ghost predicate CAUsable(r: PostgresRoute, c: Cluster) {
    CASecretOf(r).Some? ==> exists pool :: HoldsCA(r, c, pool)
  }

  /**
   * When a route resolves, and the reason it reports otherwise, from the route and the cluster alone.
   * PortNotFound stands for a missing port only if the port is written as a string; a missing number
   * is reported as InvalidBackend, like a Service that cannot be read. BackendNotFound stands for a
   * missing Secret as well as for a missing Service.
   */
  lemma FailureReasonExact(r: PostgresRoute, c: Cluster)
    ensures Resolve(r, c).Ok? <==> BackendUsable(r, c) && CAUsable(r, c)
    ensures Resolve(r, c).Err? ==>
      var reason := FailureReason(Resolve(r, c).error);
      && (reason == ReasonBackendNotFound <==> ServiceMissing(r, c) || (BackendUsable(r, c) && SecretMissing(r, c)))
      && (reason == ReasonPortNotFound <==> PortMissing(r, c) && PortIsString(r))
      && (reason == ReasonInvalidBackend <==>
            BackendUnspecified(r) || ServiceReadFails(r, c) || (PortMissing(r, c) && !PortIsString(r)))
      && (reason == ReasonCABundleFailed <==> BackendUsable(r, c) && !CAUsable(r, c) && !SecretMissing(r, c))
  {
    BackendFailure(r, c);
    TLSFailure(r, c);
  }

  lemma BackendFailure(r: PostgresRoute, c: Cluster)
    ensures ResolveBackend(r, c).Ok? <==> BackendUsable(r, c)
    ensures ResolveBackend(r, c).Err? ==>
      ResolveBackend(r, c).error.classes == (
        if ServiceMissing(r, c) then {BackendNotFound}
        else if PortMissing(r, c) && PortIsString(r) then {PortNotFound}
        else if ServiceReadFails(r, c) || (PortMissing(r, c) && r.spec.backend.service.value.port.IntRef?) then {}
        else {InvalidBackend})
  {
    if ServiceOf(r).Some? {
      var b := r.spec.backend.service.value;
      ResolvedPortIsDeclared(c, ServiceOf(r).value.namespace, b.name, b.port);
    }
  }

  lemma TLSFailure(r: PostgresRoute, c: Cluster)
    ensures ResolveTLS(r, c).Ok? <==> CAUsable(r, c)
    ensures ResolveTLS(r, c).Err? ==>
      ResolveTLS(r, c).error.classes == if SecretMissing(r, c) then {CABundle, ApiNotFound} else {CABundle}
  {
    if ResolveTLS(r, c).Ok? && CASecretOf(r).Some? { assert HoldsCA(r, c, ResolveTLS(r, c).value.rootCAs.value); }
  }

  /** A route to one Service in its own namespace, without TLS. */
  function RouteTo(service: Str, port: IntOrString): PostgresRoute {
    PostgresRoute([110], [114], 0,
      RouteSpec([], [], Backend(ServiceType, Some(ServiceBackend(service, [], port)), None), None, 0))
  }

  /** A cluster with the one Service s, which declares port 5432 under the name pg. */
  function OneService(): Cluster {
    var service := Service([ServicePort([112, 103], 5432)]);
    Cluster(map[NamespacedName([110], [115]) := service], map[], map[], map[], true, [])
  }

  /** A missing port written as a number is not reported as PortNotFound. */
  lemma MissingNumberIsInvalidBackend(n: int32)
    requires n != 5432
    ensures var r, c := RouteTo([115], IntRef(n)), OneService();
      PortMissing(r, c) && Resolve(r, c).Err? && FailureReason(Resolve(r, c).error) == ReasonInvalidBackend
  {
    FailureReasonExact(RouteTo([115], IntRef(n)), OneService());
  }

  /** The same missing port, written as a numeral, is. */
  lemma MissingNumeralIsPortNotFound(n: int32, numeral: Str)
    requires n != 5432 && ParsePortNumber(numeral) == Some(n)
    ensures var r, c := RouteTo([115], StringRef(numeral)), OneService();
      PortMissing(r, c) && Resolve(r, c).Err? && FailureReason(Resolve(r, c).error) == ReasonPortNotFound
  {
    FailureReasonExact(RouteTo([115], StringRef(numeral)), OneService());
  }

  /** A missing Secret is reported as a missing backend, though the Service is there. */
  lemma MissingSecretIsBackendNotFound()
    ensures var tls := Some(BackendTLS(VerifyFull, Some(SecretKeyReference([99], [])), []));
      var plain := RouteTo([115], IntRef(5432));
      var r, c := plain.(spec := plain.spec.(tls := tls)), OneService();
      ServiceRead(r, c) && Resolve(r, c).Err? && FailureReason(Resolve(r, c).error) == ReasonBackendNotFound
  {
    var tls := Some(BackendTLS(VerifyFull, Some(SecretKeyReference([99], [])), []));
    var plain := RouteTo([115], IntRef(5432));
    var r, c := plain.(spec := plain.spec.(tls := tls)), OneService();
    assert c.services[NamespacedName([110], [115])].ports[0].port == 5432;
    FailureReasonExact(r, c);
  }
}
