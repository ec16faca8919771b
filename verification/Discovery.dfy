/** Service discovery: one generated PostgresRoute per Service in scope, kept in step by reconciling. */
module Discovery {
  import opened Bytes
  import opened Api
  import opened Resolver
  import opened Registry

  const MANAGED_BY := Ascii("pgproxy.io/managed-by")
  const SERVICE_DISCOVERY := Ascii("service-discovery")
  const SOURCE_SERVICE := Ascii("pgproxy.io/source-service")
  const PORT_ANNOTATION := Ascii("pgproxy.io/port")
  const PRIORITY_ANNOTATION := Ascii("pgproxy.io/priority")
  const IGNORE_ANNOTATION := Ascii("pgproxy.io/ignore")
  const SUFFIX := Ascii("-discovered")
  const DISCOVERED_PRIORITY := -100
  const DEFAULT_PORT := 5432

  type Labels = map<Str, Str>

  /** A Go map read: the zero value when the key is absent. */
  function Get(m: Labels, key: Str): Str { if key in m then m[key] else [] }

  datatype OwnerKind = ServiceOwner | OtherOwner(group: Str, kind: Str)
  datatype OwnerRef = OwnerRef(kind: OwnerKind, name: Str, uid: Str, controller: bool)

  datatype Source = Source(uid: Str, labels: Labels, annotations: Labels, ports: seq<ServicePort>, deleting: bool)

  datatype RouteObject = RouteObject(labels: Labels, owners: seq<OwnerRef>, spec: RouteSpec)

  datatype Config = Config(selects: Labels -> bool, databaseAnnotation: Str)

  datatype DiscoveryError = ManagedBy(manager: Str) | AlreadyOwned(owner: OwnerRef)

  type Sources = map<NamespacedName, Source>
  type Routes = map<NamespacedName, RouteObject>

  // ---- What a Service asks for ----

  function GeneratedKey(service: NamespacedName): NamespacedName {
    NamespacedName(service.namespace, service.name + SUFFIX)
  }

  lemma GeneratedKeysDiffer(a: NamespacedName, b: NamespacedName)
    ensures GeneratedKey(a) == GeneratedKey(b) <==> a == b
  {
    if GeneratedKey(a) == GeneratedKey(b) {
      var n := a.name + SUFFIX;
      assert a.name == n[..|n| - |SUFFIX|] && b.name == n[..|n| - |SUFFIX|];
    }
  }

  predicate InScope(cfg: Config, src: Source) {
    !src.deleting && cfg.selects(src.labels) && Get(src.annotations, IGNORE_ANNOTATION) != Ascii("true")
  }

  function DatabaseName(cfg: Config, name: Str, src: Source): Str {
    var annotated := Get(src.annotations, cfg.databaseAnnotation);
    if annotated != [] then annotated else name
  }

  /** strconv.ParseInt(s, 10, 32). */
  function ParseInt32(s: Str): Option<int32> {
    if s == [] then None else
    var sign := if s[0] == '-' as int then -1 else 1;
    var digits := if s[0] == '-' as int || s[0] == '+' as int then s[1..] else s;
    if digits == [] || !AllDigits(digits) then None else
    var n := sign * DigitsValue(digits);
    if -0x8000_0000 <= n < 0x8000_0000 then Some(n) else None
  }

  function Priority(src: Source): int32 {
    if PRIORITY_ANNOTATION in src.annotations then
      match ParseInt32(src.annotations[PRIORITY_ANNOTATION])
      case Some(n) => n
      case None => DISCOVERED_PRIORITY
    else DISCOVERED_PRIORITY
  }

  lemma ParsesUnsigned(digits: Str, m: nat)
    requires digits != [] && AllDigits(digits) && DigitsValue(digits) == m < 0x8000_0000
    ensures ParseInt32(digits) == Some(m)
  {
    assert IsDigit(digits[0]);
  }

  lemma ParsesSigned(sign: Str, digits: Str, m: nat)
    requires sign == ['-' as int]
    requires digits != [] && AllDigits(digits) && DigitsValue(digits) == m <= 0x8000_0000
    ensures ParseInt32(sign + digits) == Some(0 - m as int)
  {
    assert (sign + digits)[0] == '-' as int && (sign + digits)[1..] == digits;
  }

  lemma MinusSign()
    ensures Ascii("-") == ['-' as int]
  {}

  /** An override written as a decimal numeral is taken at its value, over the whole int32 range. */
  lemma AnnotatedPriority(src: Source, n: int32)
    requires PRIORITY_ANNOTATION in src.annotations && src.annotations[PRIORITY_ANNOTATION] == Itoa(n)
    ensures Priority(src) == n
  {
    assert ParseInt32(Itoa(n)) == Some(n) by { ParsesItoa(n); }
  }

  /** An optional sign and at least one decimal digit, of this value. */
  ghost predicate NumeralFor(raw: Str, n: int32) { exists digits :: Spells(raw, digits, n) }

  predicate Spells(raw: Str, digits: Str, n: int32) {
    && digits != [] && AllDigits(digits)
    && (|| (raw == digits && n == DigitsValue(digits))
        || (raw == ['+' as int] + digits && n == DigitsValue(digits))
        || (raw == ['-' as int] + digits && n == 0 - DigitsValue(digits)))
  }

  /** A numeral is exactly what parses, with no blanks, no other base and nothing out of range. */
  lemma ParsesExactly(raw: Str, n: int32)
    ensures ParseInt32(raw) == Some(n) <==> NumeralFor(raw, n)
  {
    if ParseInt32(raw) == Some(n) { ParsedIsSpelled(raw, n); }
    if NumeralFor(raw, n) {
      var digits :| Spells(raw, digits, n);
      SpelledIsParsed(raw, digits, n);
    }
  }

  lemma ParsedIsSpelled(raw: Str, n: int32)
    requires ParseInt32(raw) == Some(n)
    ensures NumeralFor(raw, n)
  {
    if raw[0] == '-' as int || raw[0] == '+' as int {
      assert raw == [raw[0]] + raw[1..];
      assert Spells(raw, raw[1..], n);
    } else {
      assert Spells(raw, raw, n);
    }
  }

  lemma SpelledIsParsed(raw: Str, digits: Str, n: int32)
    requires Spells(raw, digits, n)
    ensures ParseInt32(raw) == Some(n)
  {
    assert IsDigit(digits[0]);
    if raw != digits { assert raw[1..] == digits; }
  }

  /** The priority asked for: the annotated numeral, and -100 without one or with something else there. */
  lemma PriorityIsExact(src: Source)
    ensures PRIORITY_ANNOTATION in src.annotations ==>
      forall n: int32 :: NumeralFor(src.annotations[PRIORITY_ANNOTATION], n) ==> Priority(src) == n
    ensures (PRIORITY_ANNOTATION in src.annotations ==>
      forall n: int32 :: !NumeralFor(src.annotations[PRIORITY_ANNOTATION], n)) ==> Priority(src) == -100
  {
    if PRIORITY_ANNOTATION in src.annotations {
      var raw := src.annotations[PRIORITY_ANNOTATION];
      forall n: int32 | NumeralFor(raw, n) ensures Priority(src) == n { ParsesExactly(raw, n); }
      if ParseInt32(raw).Some? { ParsesExactly(raw, ParseInt32(raw).value); }
    }
  }

  lemma ParsesItoa(n: int32)
    ensures ParseInt32(Itoa(n)) == Some(n)
  {
    if n < 0 { ParsesNegative(0 - n); } else { ParsesNatural(n); }
  }

  lemma ParsesNatural(m: nat)
    requires m < 0x8000_0000
    ensures ParseInt32(Decimal(m)) == Some(m)
  {
    DecimalValue(m);
    ParsesUnsigned(Decimal(m), m);
  }

  lemma ParsesNegative(m: nat)
    requires m <= 0x8000_0000
    ensures ParseInt32(Ascii("-") + Decimal(m)) == Some(0 - m as int)
  {
    DecimalValue(m);
    MinusSign();
    ParsesSigned(Ascii("-"), Decimal(m), m);
  }

  predicate PostgresName(name: Str) { name == Ascii("postgresql") || name == Ascii("postgres") }

  function FirstPostgres(ports: seq<ServicePort>): (r: Option<int32>)
    ensures r.None? <==> forall i :: 0 <= i < |ports| ==> !PostgresName(ports[i].name)
    ensures r.Some? ==> Declares(Service(ports), r.value)
  {
    if ports == [] then None
    else if PostgresName(ports[0].name) then Some(ports[0].port)
    else
      var r := FirstPostgres(ports[1..]);
      assert forall i :: 0 <= i < |ports[1..]| ==> ports[1..][i] == ports[i + 1];
      assert forall i :: 1 <= i < |ports| ==> ports[i] == ports[1..][i - 1];
      r
  }

  function Port(src: Source): IntOrString {
    var raw := Get(src.annotations, PORT_ANNOTATION);
    if raw != [] then
      match ParseInt32(raw)
      case Some(n) => IntRef(n)
      case None => StringRef(raw)
    else match FirstPostgres(src.ports)
      case Some(p) => IntRef(p)
      case None =>
        if Declares(Service(src.ports), DEFAULT_PORT) then IntRef(DEFAULT_PORT)
        else if |src.ports| == 1 then IntRef(src.ports[0].port)
        else IntRef(DEFAULT_PORT)
  }

  /** Which Services offer a port the gateway can find, said without reference to the search. */
  ghost predicate OffersPort(src: Source) {
    var raw := Get(src.annotations, PORT_ANNOTATION);
    if raw == [] then
      (exists i :: 0 <= i < |src.ports| &&
        (PostgresName(src.ports[i].name) || src.ports[i].port == DEFAULT_PORT || |src.ports| == 1))
    else if ParseInt32(raw).Some? then Declares(Service(src.ports), ParseInt32(raw).value)
    else exists i :: 0 <= i < |src.ports| && src.ports[i].name == raw
  }

  predicate PostgresNamed(ports: seq<ServicePort>, i: nat)
    requires i < |ports|
  {
    ports[i].name == Ascii("postgresql") || ports[i].name == Ascii("postgres")
  }

  predicate FirstNamed(ports: seq<ServicePort>, i: nat) {
    i < |ports| && PostgresNamed(ports, i) && forall j :: 0 <= j < i ==> !PostgresNamed(ports, j)
  }

  /** Without an annotation: the first port with a postgres name, else 5432 if declared, else a sole port, else 5432. */
  lemma PortPrecedence(src: Source)
    requires Get(src.annotations, PORT_ANNOTATION) == []
    ensures forall i: nat :: FirstNamed(src.ports, i) ==> Port(src) == IntRef(src.ports[i].port)
    ensures (forall j :: 0 <= j < |src.ports| ==> !PostgresNamed(src.ports, j)) ==>
      Port(src) == IntRef(if |src.ports| == 1 && src.ports[0].port != 5432 then src.ports[0].port else 5432)
  {
    forall i: nat | FirstNamed(src.ports, i) ensures Port(src) == IntRef(src.ports[i].port) {
      FirstPostgresIsFirst(src.ports, i);
    }
    if forall j :: 0 <= j < |src.ports| ==> !PostgresNamed(src.ports, j) {
      forall j | 0 <= j < |src.ports| ensures !PostgresName(src.ports[j].name) {
        assert !PostgresNamed(src.ports, j);
      }
      assert |src.ports| == 1 && src.ports[0].port == 5432 ==> Declares(Service(src.ports), 5432);
    }
  }

  lemma {:induction false} FirstPostgresIsFirst(ports: seq<ServicePort>, i: nat)
    requires FirstNamed(ports, i)
    ensures FirstPostgres(ports) == Some(ports[i].port)
  {
    if i > 0 {
      assert !PostgresNamed(ports, 0);
      forall j | 0 <= j < i - 1 ensures !PostgresNamed(ports[1..], j) { assert !PostgresNamed(ports, j + 1); }
      FirstPostgresIsFirst(ports[1..], i - 1);
    }
  }

  /** An annotated port is taken as a number when it is an int32, else as a name. */
  lemma AnnotatedPort(src: Source)
    requires Get(src.annotations, PORT_ANNOTATION) != []
    ensures var raw := Get(src.annotations, PORT_ANNOTATION);
      && (forall n: int32 :: NumeralFor(raw, n) ==> Port(src) == IntRef(n))
      && ((forall n: int32 :: !NumeralFor(raw, n)) ==> Port(src) == StringRef(raw))
  {
    var raw := Get(src.annotations, PORT_ANNOTATION);
    forall n: int32 | NumeralFor(raw, n) ensures Port(src) == IntRef(n) { ParsesExactly(raw, n); }
    if ParseInt32(raw).Some? { ParsesExactly(raw, ParseInt32(raw).value); }
  }

  /** The port written into the route resolves exactly when the Service can be read and has one to find. */
  lemma GeneratedPortResolves(c: Cluster, key: NamespacedName, src: Source)
    requires key in c.services && c.services[key] == Service(src.ports)
    ensures ResolveServicePort(c, key.namespace, key.name, Port(src)).Ok? <==>
      key !in c.unreadableServices && OffersPort(src)
  {
    var raw := Get(src.annotations, PORT_ANNOTATION);
    if raw != [] {
      UnparsedIsName(raw);
    } else if FirstPostgres(src.ports).None? && |src.ports| == 1 {
      assert src.ports[0].port == src.ports[0].port;
    }
  }

  /** An annotation that is no int32 is no port number either, so the resolver reads it as a name. */
  lemma UnparsedIsName(raw: Str)
    ensures ParsePortNumber(raw).Some? ==> ParseInt32(raw) == ParsePortNumber(raw)
  {
    if ParsePortNumber(raw).Some? { assert IsDigit(raw[0]); }
  }

  // ---- Owner references ----

  /** The reference marked as controller, if any. */
  function Controller(owners: seq<OwnerRef>): Option<OwnerRef> {
    if owners == [] then None
    else if owners[0].controller then Some(owners[0])
    else Controller(owners[1..])
  }

  /** References are matched by kind and name; a Service recreated with a new UID is the same owner. */
  predicate SameObject(a: OwnerRef, b: OwnerRef) { a.kind == b.kind && a.name == b.name }

  function Upsert(owners: seq<OwnerRef>, ref: OwnerRef): seq<OwnerRef> {
    if owners == [] then [ref]
    else if SameObject(owners[0], ref) then [ref] + owners[1..]
    else [owners[0]] + Upsert(owners[1..], ref)
  }

  predicate MayControl(owners: seq<OwnerRef>, ref: OwnerRef) {
    Controller(owners).Some? ==> SameObject(Controller(owners).value, ref)
  }

  lemma {:induction false} UpsertTakesControl(owners: seq<OwnerRef>, ref: OwnerRef)
    requires ref.controller && MayControl(owners, ref)
    ensures Controller(Upsert(owners, ref)) == Some(ref)
    ensures Upsert(Upsert(owners, ref), ref) == Upsert(owners, ref)
    ensures forall o: OwnerRef :: o.kind != ref.kind || o.name != ref.name ==>
      (o in Upsert(owners, ref) <==> o in owners)
  {
    if owners != [] && !SameObject(owners[0], ref) {
      UpsertTakesControl(owners[1..], ref);
      assert Upsert(owners, ref)[1..] == Upsert(owners[1..], ref);
    }
  }

  // ---- One reconcile ----

  function OwnerOf(service: NamespacedName, src: Source): OwnerRef {
    OwnerRef(ServiceOwner, service.name, src.uid, true)
  }

  function BackendFor(service: NamespacedName, src: Source): Backend {
    Backend(ServiceType, Some(ServiceBackend(service.name, service.namespace, Port(src))), None)
  }

  const BLANK := RouteObject(map[], [], RouteSpec([], [], Backend(UnknownType([]), None, None), None, 0))

  /** Labelled as some other manager's. */
  predicate Foreign(route: RouteObject) {
    Get(route.labels, MANAGED_BY) != [] && Get(route.labels, MANAGED_BY) != SERVICE_DISCOVERY
  }

  function Written(cfg: Config, service: NamespacedName, src: Source, route: RouteObject): RouteObject {
    RouteObject(
      route.labels[MANAGED_BY := SERVICE_DISCOVERY][SOURCE_SERVICE := service.name],
      Upsert(route.owners, OwnerOf(service, src)),
      route.spec.(database := DatabaseName(cfg, service.name, src), priority := Priority(src),
                  backend := BackendFor(service, src)))
  }

  /** The mutation CreateOrUpdate applies to the route it read, or to a blank one. */
  function Mutate(cfg: Config, service: NamespacedName, src: Source, route: RouteObject)
    : Result<RouteObject, DiscoveryError>
  {
    if Foreign(route) then Err(ManagedBy(Get(route.labels, MANAGED_BY)))
    else if !MayControl(route.owners, OwnerOf(service, src)) then Err(AlreadyOwned(Controller(route.owners).value))
    else Ok(Written(cfg, service, src, route))
  }

  /** Generated by this controller for this very Service object. */
  predicate Deletable(src: Source, route: RouteObject) {
    && Get(route.labels, MANAGED_BY) == SERVICE_DISCOVERY
    && Controller(route.owners).Some? && Controller(route.owners).value.uid == src.uid
  }

  /** What one reconcile makes of the route with the generated name. */
  function Settle(cfg: Config, service: NamespacedName, src: Source,
      current: Option<RouteObject>): Option<RouteObject> {
    if !InScope(cfg, src) then
      if current.Some? && Deletable(src, current.value) then None else current
    else
      match Mutate(cfg, service, src, if current.Some? then current.value else BLANK)
      case Ok(route) => Some(route)
      case Err(_) => current
  }

  function At(routes: Routes, key: NamespacedName): Option<RouteObject> {
    if key in routes then Some(routes[key]) else None
  }

  function Put(routes: Routes, key: NamespacedName, route: Option<RouteObject>): Routes {
    match route
    case Some(o) => routes[key := o]
    case None => routes - {key}
  }

  function Step(cfg: Config, sources: Sources, routes: Routes, service: NamespacedName): Routes {
    if service !in sources then routes
    else
      var key := GeneratedKey(service);
      Put(routes, key, Settle(cfg, service, sources[service], At(routes, key)))
  }

  /** The routes in the API server, as the reconciler changes them. */
  class RouteStore {
    var routes: Routes

    constructor (routes: Routes)
      ensures this.routes == routes
    {
      this.routes := routes;
    }

    method DeleteGeneratedRoute(service: NamespacedName, src: Source)
      modifies this
      ensures routes == var key := GeneratedKey(service);
        if key in old(routes) && Deletable(src, old(routes)[key]) then old(routes) - {key} else old(routes)
    {
      var key := GeneratedKey(service);
      if key !in routes { return; }
      var existing := routes[key];
      if Get(existing.labels, MANAGED_BY) != SERVICE_DISCOVERY { return; }
      var owner := Controller(existing.owners);
      if owner.None? || owner.value.uid != src.uid { return; }
      routes := routes - {key};
    }

    /** Any failure leaves every route as it was. */
    method Reconcile(cfg: Config, sources: Sources, service: NamespacedName) returns (err: Option<DiscoveryError>)
      modifies this
      ensures routes == Step(cfg, sources, old(routes), service)
      ensures err.Some? ==> routes == old(routes)
      ensures err.Some? <==> (service in sources && InScope(cfg, sources[service])
        && !Adoptable(service, At(old(routes), GeneratedKey(service))))
    {
      if service !in sources { return None; }
      var src := sources[service];
      if src.deleting || !cfg.selects(src.labels) || Get(src.annotations, IGNORE_ANNOTATION) == Ascii("true") {
        DeleteGeneratedRoute(service, src);
        return None;
      }
      var key := GeneratedKey(service);
      var route := if key in routes then routes[key] else BLANK;
      match Mutate(cfg, service, src, route) {
        case Err(e) => return Some(e);
        case Ok(written) =>
          routes := routes[key := written];
          return None;
      }
    }
  }

  // ---- What a reconcile means ----

  /** No route yet, or one nobody else manages or controls. An unlabelled hand-written route qualifies. */
  predicate Adoptable(service: NamespacedName, current: Option<RouteObject>) {
    current.Some? ==>
      && (MANAGED_BY in current.value.labels ==> current.value.labels[MANAGED_BY] in {[], SERVICE_DISCOVERY})
      && match Controller(current.value.owners)
        case None => true
        case Some(owner) => owner.kind == ServiceOwner && owner.name == service.name
  }

  /** The route says what the Service asks for, and belongs to it. */
  predicate Publishes(cfg: Config, service: NamespacedName, src: Source, route: RouteObject) {
    && Get(route.labels, MANAGED_BY) == SERVICE_DISCOVERY && Get(route.labels, SOURCE_SERVICE) == service.name
    && Controller(route.owners) == Some(OwnerOf(service, src))
    && NameAsked(cfg, service, src, route.spec.database) && route.spec.priority == Priority(src)
    && route.spec.backend == BackendFor(service, src)
  }

  /** The annotated database name or, without one, the name of the Service. */
  predicate NameAsked(cfg: Config, service: NamespacedName, src: Source, d: Str) {
    if cfg.databaseAnnotation in src.annotations && src.annotations[cfg.databaseAnnotation] != []
    then d == src.annotations[cfg.databaseAnnotation] else d == service.name
  }

  lemma LabelsAreDistinct()
    ensures MANAGED_BY != SOURCE_SERVICE && SERVICE_DISCOVERY != []
  {
    assert |MANAGED_BY| == 21 && |SOURCE_SERVICE| == 25 && |SERVICE_DISCOVERY| == 17;
  }

  lemma WrittenPublishes(cfg: Config, service: NamespacedName, src: Source, route: RouteObject)
    requires MayControl(route.owners, OwnerOf(service, src))
    ensures Publishes(cfg, service, src, Written(cfg, service, src, route))
    ensures Written(cfg, service, src, Written(cfg, service, src, route)) == Written(cfg, service, src, route)
  {
    LabelsAreDistinct();
    UpsertTakesControl(route.owners, OwnerOf(service, src));
  }

  /**
   * In scope, the Service's route is published exactly when the name was free to take; what the
   * reconciler does not own of it stays. Out of scope, the route goes exactly when it is this
   * Service's own.
   */
  lemma SettleIsExact(cfg: Config, service: NamespacedName, src: Source, current: Option<RouteObject>)
    ensures var after := Settle(cfg, service, src, current);
      if InScope(cfg, src) then
        && (after.Some? && Publishes(cfg, service, src, after.value) <==> Adoptable(service, current))
        && (!Adoptable(service, current) ==> after == current)
        && (after.Some? && current.Some? ==>
              && after.value.spec.targetDatabase == current.value.spec.targetDatabase
              && after.value.spec.tls == current.value.spec.tls
              && after.value.labels - {MANAGED_BY, SOURCE_SERVICE}
                  == current.value.labels - {MANAGED_BY, SOURCE_SERVICE})
      else
        && (after == None || after == current)
        && (current.Some? && after.None? <==> current.Some? && Deletable(src, current.value))
  {
    if InScope(cfg, src) && Adoptable(service, current) {
      WrittenPublishes(cfg, service, src, if current.Some? then current.value else BLANK);
    }
  }

  lemma SettleIsIdempotent(cfg: Config, service: NamespacedName, src: Source, current: Option<RouteObject>)
    ensures var once := Settle(cfg, service, src, current); Settle(cfg, service, src, once) == once
  {
    if InScope(cfg, src) && Adoptable(service, current) {
      WrittenPublishes(cfg, service, src, if current.Some? then current.value else BLANK);
    }
  }

  // ---- Any order of reconciles ----

  function Run(cfg: Config, sources: Sources, routes: Routes, requests: seq<NamespacedName>): Routes {
    if requests == [] then routes
    else Step(cfg, sources, Run(cfg, sources, routes, requests[..|requests| - 1]), requests[|requests| - 1])
  }

  function Asked(requests: seq<NamespacedName>): set<NamespacedName> { set r | r in requests }

  /** What the requests are meant to reach, by generated key and without any order. */
  ghost predicate IsTarget(cfg: Config, sources: Sources, before: Routes, asked: set<NamespacedName>, after: Routes) {
    && (forall service :: service in asked && service in sources ==>
          At(after, GeneratedKey(service))
            == Settle(cfg, service, sources[service], At(before, GeneratedKey(service))))
    && (forall key :: !Generated(sources, asked, key) ==> At(after, key) == At(before, key))
  }

  ghost predicate Generated(sources: Sources, asked: set<NamespacedName>, key: NamespacedName) {
    exists service :: service in asked && service in sources && GeneratedKey(service) == key
  }

  lemma StepIsLocal(cfg: Config, sources: Sources, routes: Routes, service: NamespacedName, key: NamespacedName)
    ensures At(Step(cfg, sources, routes, service), key) ==
      if service in sources && key == GeneratedKey(service)
      then Settle(cfg, service, sources[service], At(routes, key)) else At(routes, key)
  {}

  lemma {:induction false} RunReachesTarget(cfg: Config, sources: Sources, routes: Routes,
      requests: seq<NamespacedName>)
    ensures IsTarget(cfg, sources, routes, Asked(requests), Run(cfg, sources, routes, requests))
  {
    if requests != [] {
      var n := |requests| - 1;
      RunReachesTarget(cfg, sources, routes, requests[..n]);
      var asked := Asked(requests[..n]);
      assert requests == requests[..n] + [requests[n]];
      assert Asked(requests) == asked + {requests[n]};
      StepReachesTarget(cfg, sources, routes, asked, Run(cfg, sources, routes, requests[..n]), requests[n]);
    }
  }

  lemma StepReachesTarget(cfg: Config, sources: Sources, before: Routes, asked: set<NamespacedName>, mid: Routes,
                          last: NamespacedName)
    requires IsTarget(cfg, sources, before, asked, mid)
    ensures IsTarget(cfg, sources, before, asked + {last}, Step(cfg, sources, mid, last))
  {
    var after := Step(cfg, sources, mid, last);
    forall service | service in asked + {last} && service in sources
      ensures At(after, GeneratedKey(service))
        == Settle(cfg, service, sources[service], At(before, GeneratedKey(service)))
    {
      var key := GeneratedKey(service);
      StepIsLocal(cfg, sources, mid, last, key);
      GeneratedKeysDiffer(service, last);
      if service == last {
        if last in asked { SettleIsIdempotent(cfg, last, sources[last], At(before, key)); }
        else { UnaskedIsUntouched(sources, asked, last); }
      }
    }
    forall key | !Generated(sources, asked + {last}, key) ensures At(after, key) == At(before, key) {
      StepIsLocal(cfg, sources, mid, last, key);
      assert !Generated(sources, asked, key);
    }
  }

  lemma UnaskedIsUntouched(sources: Sources, asked: set<NamespacedName>, service: NamespacedName)
    requires service !in asked
    ensures !Generated(sources, asked, GeneratedKey(service))
  {
    forall other | other in asked ensures GeneratedKey(other) != GeneratedKey(service) {
      GeneratedKeysDiffer(other, service);
    }
  }

  lemma TargetIsUnique(cfg: Config, sources: Sources, before: Routes, asked: set<NamespacedName>, a: Routes, b: Routes)
    requires IsTarget(cfg, sources, before, asked, a) && IsTarget(cfg, sources, before, asked, b)
    ensures a == b
  {
    forall key ensures At(a, key) == At(b, key) {}
    assert forall key :: key in a <==> At(a, key).Some?;
    assert forall key :: key in b <==> At(b, key).Some?;
    forall key | key in a ensures key in b && a[key] == b[key] { assert At(a, key) == At(b, key); }
    forall key | key in b ensures key in a { assert At(a, key) == At(b, key); }
  }

  /** Discovery is confluent: order and repetition of the reconciles do not matter. */
  lemma DiscoveryIsConfluent(cfg: Config, sources: Sources, routes: Routes, p: seq<NamespacedName>,
      q: seq<NamespacedName>)
    requires Asked(p) == Asked(q)
    ensures Run(cfg, sources, routes, p) == Run(cfg, sources, routes, q)
  {
    RunReachesTarget(cfg, sources, routes, p);
    RunReachesTarget(cfg, sources, routes, q);
    TargetIsUnique(cfg, sources, routes, Asked(p),
      Run(cfg, sources, routes, p), Run(cfg, sources, routes, q));
  }

  /** No run of reconciles changes or deletes a route labelled as another manager's. */
  lemma {:induction false} ForeignRoutesStay(cfg: Config, sources: Sources, routes: Routes,
      requests: seq<NamespacedName>, key: NamespacedName)
    requires key in routes && Foreign(routes[key])
    ensures var after := Run(cfg, sources, routes, requests); key in after && after[key] == routes[key]
  {
    LabelsAreDistinct();
    var asked := Asked(requests);
    RunReachesTarget(cfg, sources, routes, requests);
    var after := Run(cfg, sources, routes, requests);
    if Generated(sources, asked, key) {
      var service :| service in asked && service in sources && GeneratedKey(service) == key;
      SettleIsExact(cfg, service, sources[service], At(routes, key));
    }
    assert At(after, key) == At(routes, key);
  }

  /** A route disappears exactly when a reconciled Service out of scope owns it, by label and by UID. */
  lemma DeletionIsExact(cfg: Config, sources: Sources, routes: Routes, requests: seq<NamespacedName>,
      key: NamespacedName)
    requires key in routes
    ensures key !in Run(cfg, sources, routes, requests) <==>
      exists service :: service in requests && service in sources && GeneratedKey(service) == key
        && !InScope(cfg, sources[service]) && Deletable(sources[service], routes[key])
  {
    var asked := Asked(requests);
    RunReachesTarget(cfg, sources, routes, requests);
    var after := Run(cfg, sources, routes, requests);
    if Generated(sources, asked, key) {
      var service :| service in asked && service in sources && GeneratedKey(service) == key;
      SettleIsExact(cfg, service, sources[service], At(routes, key));
      forall other | other in sources && GeneratedKey(other) == key ensures other == service {
        GeneratedKeysDiffer(other, service);
      }
      assert At(after, key) == Settle(cfg, service, sources[service], At(routes, key));
    } else {
      assert At(after, key) == At(routes, key);
    }
  }

  /** A route a user wrote by hand under the generated name, unlabelled and unowned, is taken over. */
  lemma HandWrittenRouteIsOverwritten(cfg: Config, service: NamespacedName, src: Source, spec: RouteSpec)
    requires InScope(cfg, src) && spec.backend != BackendFor(service, src)
    ensures var key, written := GeneratedKey(service), RouteObject(map[], [], spec);
      var after := Run(cfg, map[service := src], map[key := written], [service]);
      key in after && after[key] != written && Publishes(cfg, service, src, after[key])
  {
    var key, written := GeneratedKey(service), RouteObject(map[], [], spec);
    assert Get(written.labels, MANAGED_BY) == [];
    ServicesArePublished(cfg, map[service := src], map[key := written], [service], service);
  }

  /** After any run, a reconciled Service in scope has its route exactly when the name was free to take. */
  lemma ServicesArePublished(cfg: Config, sources: Sources, routes: Routes, requests: seq<NamespacedName>,
      service: NamespacedName)
    requires service in requests && service in sources && InScope(cfg, sources[service])
    ensures var after := At(Run(cfg, sources, routes, requests), GeneratedKey(service));
      (after.Some? && Publishes(cfg, service, sources[service], after.value))
      <==> Adoptable(service, At(routes, GeneratedKey(service)))
  {
    RunReachesTarget(cfg, sources, routes, requests);
    SettleIsExact(cfg, service, sources[service], At(routes, GeneratedKey(service)));
    assert service in Asked(requests);
  }

  /**
   * Discovery to routing, end to end: the route published for a Service resolves exactly when that
   * Service can be read and offers a port, and the CA bundle, if an adopted route asks for one, is
   * there; and then to that Service's own name and a port it declares.
   */
  lemma PublishedRouteResolves(c: Cluster, cfg: Config, service: NamespacedName, src: Source, o: RouteObject,
      created: int)
    requires Publishes(cfg, service, src, o)
    requires service in c.services && c.services[service] == Service(src.ports)
    ensures var key := GeneratedKey(service);
      var route := PostgresRoute(key.namespace, key.name, created, o.spec);
      var r := Resolve(route, c);
      && (r.Ok? <==>
            (service !in c.unreadableServices && OffersPort(src)
              && (CASecretOf(route).Some? ==> exists pool :: HoldsCA(route, c, pool))))
      && (r.Ok? ==>
            && r.value.host == service.name + Ascii(".") + service.namespace + Ascii(".svc.") + c.domain
            && IsPortOf(Service(src.ports), Port(src), r.value.port)
            && r.value.source == key && (r.value.tls.Enabled() <==> AsksTLS(route)))
  {
    var key := GeneratedKey(service);
    var route := PostgresRoute(key.namespace, key.name, created, o.spec);
    GeneratedPortResolves(c, service, src);
    ResolvedPortIsDeclared(c, service.namespace, service.name, Port(src));
    ResolvesTLS(route, c);
    assert ResolveBackend(route, c).Ok? <==> ResolveServicePort(c, service.namespace, service.name, Port(src)).Ok?;
  }

  lemma ResolvesTLS(r: PostgresRoute, c: Cluster)
    ensures ResolveTLS(r, c).Ok? <==> (CASecretOf(r).Some? ==> exists pool :: HoldsCA(r, c, pool))
    ensures ResolveTLS(r, c).Ok? ==> (ResolveTLS(r, c).value.Enabled() <==> AsksTLS(r))
  {
    if ResolveTLS(r, c).Ok? && CASecretOf(r).Some? { assert HoldsCA(r, c, ResolveTLS(r, c).value.rootCAs.value); }
  }

  ghost predicate Rival(routes: set<PostgresRoute>, r: PostgresRoute, other: PostgresRoute) {
    other in routes && other != r && other.EffectiveDatabase() == r.EffectiveDatabase()
  }

  /** Ahead by priority or, at equal priority, by age and then by name. */
  ghost predicate Outranks(declared: PostgresRoute, src: Source, generated: PostgresRoute) {
    || declared.spec.priority > Priority(src)
    || (declared.spec.priority == Priority(src) && Earlier(declared, generated))
  }

  lemma OutranksIsLess(declared: PostgresRoute, src: Source, generated: PostgresRoute)
    requires generated.spec.priority == Priority(src)
    ensures Outranks(declared, src, generated) <==> Less(declared, generated)
  {
    LessIsTheRule(declared, generated);
  }

  /**
   * How far declaring a route overrides discovery: the generated route is turned down exactly when a
   * rival for its database has a higher priority than the Service asks for, -100 unless annotated,
   * or the same and is older or earlier by name.
   */
  lemma DeclaredRouteOverrides(routes: set<PostgresRoute>, rv: Answers, snapshot: Snapshot, src: Source,
                               generated: PostgresRoute)
    requires UniqueKeys(routes) && MeetsSpec(routes, rv, snapshot) && generated in routes
    requires generated.spec.priority == Priority(src)
    ensures generated.Key() in snapshot.decisions
    ensures !snapshot.decisions[generated.Key()].accepted <==>
      exists declared :: Rival(routes, generated, declared) && Outranks(declared, src, generated)
  {
    assert DecidesRoute(routes, rv, generated, snapshot.decisions[generated.Key()]);
    if IsWinner(routes, generated) {
      forall declared | Rival(routes, generated, declared) ensures !Outranks(declared, src, generated) {
        LessIsTotal(generated, declared);
        OutranksIsLess(declared, src, generated);
      }
    } else {
      var w := WinnerExists(routes, generated);
      OutranksIsLess(w, src, generated);
      assert Rival(routes, generated, w) && Outranks(w, src, generated);
    }
  }

  /** A Service annotated with a positive priority n keeps its name from a route declared at the default 0. */
  lemma AnnotationBeatsDeclaredRoute(rv: Answers, src: Source, n: int32, generated: PostgresRoute,
                                     declared: PostgresRoute, listing: seq<PostgresRoute>)
    requires n > 0 && src.annotations == map[PRIORITY_ANNOTATION := Itoa(n)]
    requires generated.spec.priority == Priority(src) && declared.spec.priority == 0
    requires generated.Key() != declared.Key() && generated.EffectiveDatabase() == declared.EffectiveDatabase()
    requires DistinctKeys(listing) && Elements(listing) == {generated, declared}
    ensures var decisions := BuildSnapshot(listing, rv).decisions;
      && generated.Key() in decisions && decisions[generated.Key()].accepted
      && declared.Key() in decisions && !decisions[declared.Key()].accepted
  {
    AnnotatedPriority(src, n);
    BuildMeetsSpec(listing, rv);
    SnapshotOfTwo(rv, generated, declared, BuildSnapshot(listing, rv));
  }

  lemma SnapshotOfTwo(rv: Answers, a: PostgresRoute, b: PostgresRoute, snapshot: Snapshot)
    requires Less(a, b) && a.EffectiveDatabase() == b.EffectiveDatabase() && MeetsSpec({a, b}, rv, snapshot)
    ensures a.Key() in snapshot.decisions && snapshot.decisions[a.Key()].accepted
    ensures b.Key() in snapshot.decisions && !snapshot.decisions[b.Key()].accepted
  {
    LessIsTotal(a, b);
    assert DecidesRoute({a, b}, rv, a, snapshot.decisions[a.Key()]);
    assert DecidesRoute({a, b}, rv, b, snapshot.decisions[b.Key()]);
  }
}
