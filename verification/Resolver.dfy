/** Turning a Service port reference or a CA reference into a concrete value. */
module Resolver {
  import opened Bytes
  import opened Api

  /** The sentinels an error chain carries, as errors.Is and apierrors.IsNotFound see them. */
  datatype ErrorClass = BackendNotFound | PortNotFound | InvalidBackend | CABundle | ApiNotFound

  /** An error's message: the format it was built with, and the arguments. */
  datatype ErrorText =
    | ServiceNotFound(key: NamespacedName)
    | ServiceUnreadable(key: NamespacedName, failure: Str)
    | NumberedPortMissing(key: NamespacedName, port: int32, wrapsPortNotFound: bool)
    | NamedPortMissing(key: NamespacedName, name: Str)
    | UnknownPortReference(key: NamespacedName)
    | BackendUnset(kind: BackendType)
    | UnsupportedBackendType(name: Str)
    | SecretsDisabled(key: NamespacedName)
    | SecretNotFound(key: NamespacedName)
    | SecretUnreadable(key: NamespacedName, failure: Str)
    | SecretKeyMissing(key: NamespacedName, entry: Str)
    | NotPEM(key: NamespacedName, entry: Str)
    | CABundleUnavailable(cause: ErrorText)

  datatype ResolveError = ResolveError(classes: set<ErrorClass>, text: ErrorText)

  // ---- Ports ----

  /** strconv.ParseUint(s, 10, 16) without the value zero. */
  function ParsePortNumber(s: Str): (r: Option<int32>)
    ensures r.Some? ==> 1 <= r.value <= 65535
  {
    if s != [] && AllDigits(s) && 1 <= DigitsValue(s) <= 65535 then Some(DigitsValue(s)) else None
  }

  predicate Declares(svc: Service, port: int32) {
    exists i :: 0 <= i < |svc.ports| && svc.ports[i].port == port
  }

  /** The port of the first entry called name. */
  function FirstNamed(ports: seq<ServicePort>, name: Str): (r: Option<int32>)
    ensures r.Some? ==> exists i :: 0 <= i < |ports| && ports[i] == ServicePort(name, r.value)
    ensures r.None? <==> forall i :: 0 <= i < |ports| ==> ports[i].name != name
  {
    if ports == [] then None
    else if ports[0].name == name then Some(ports[0].port)
    else
      var r := FirstNamed(ports[1..], name);
      assert forall i :: 0 <= i < |ports[1..]| ==> ports[1..][i] == ports[i + 1];
      assert r.Some? ==> exists i :: 0 <= i < |ports| && ports[i] == ServicePort(name, r.value) by {
        if r.Some? {
          var i :| 0 <= i < |ports[1..]| && ports[1..][i] == ServicePort(name, r.value);
          assert ports[i + 1] == ServicePort(name, r.value);
        }
      }
      r
  }

  function ResolveServicePort(c: Cluster, namespace: Str, name: Str, port: IntOrString): Result<int32, ResolveError> {
    var key := NamespacedName(namespace, name);
    if key in c.unreadableServices then Err(ResolveError({}, ServiceUnreadable(key, c.unreadableServices[key])))
    else if key !in c.services then Err(ResolveError({BackendNotFound}, ServiceNotFound(key)))
    else
      var svc := c.services[key];
      match port
      case IntRef(want) =>
        if Declares(svc, want) then Ok(want) else Err(ResolveError({}, NumberedPortMissing(key, want, false)))
      case StringRef(s) =>
        (match ParsePortNumber(s)
         case Some(numeric) =>
           if Declares(svc, numeric) then Ok(numeric)
           else Err(ResolveError({PortNotFound}, NumberedPortMissing(key, numeric, true)))
         case None =>
           match FirstNamed(svc.ports, s)
           case Some(p) => Ok(p)
           case None => Err(ResolveError({PortNotFound}, NamedPortMissing(key, s))))
      case UnknownRef => Err(ResolveError({InvalidBackend}, UnknownPortReference(key)))
  }

  /** The Service declares the number, or has a port of that name. */
  predicate HasPort(svc: Service, port: IntOrString) {
    match port
    case IntRef(want) => Declares(svc, want)
    case StringRef(s) =>
      if ParsePortNumber(s).Some? then Declares(svc, ParsePortNumber(s).value)
      else exists i :: 0 <= i < |svc.ports| && svc.ports[i].name == s
    case UnknownRef => false
  }

  /** The very port asked for: that number, or the number of the first port of that name. */
  ghost predicate IsPortOf(svc: Service, port: IntOrString, n: int32) {
    match port
    case IntRef(want) => n == want && Declares(svc, n)
    case StringRef(s) =>
      if ParsePortNumber(s).Some? then n == ParsePortNumber(s).value && Declares(svc, n)
      else exists i: nat :: FirstOfName(svc.ports, s, i) && svc.ports[i].port == n
    case UnknownRef => false
  }

  predicate FirstOfName(ports: seq<ServicePort>, name: Str, i: nat) {
    i < |ports| && ports[i].name == name && forall j :: 0 <= j < i ==> ports[j].name != name
  }

  lemma {:induction false} FirstNamedIsFirst(ports: seq<ServicePort>, name: Str) returns (i: nat)
    requires FirstNamed(ports, name).Some?
    ensures FirstOfName(ports, name, i) && ports[i].port == FirstNamed(ports, name).value
  {
    if ports[0].name == name {
      i := 0;
    } else {
      var k := FirstNamedIsFirst(ports[1..], name);
      i := k + 1;
      forall j | 0 <= j < i ensures ports[j].name != name { if j > 0 { assert ports[j] == ports[1..][j - 1]; } }
    }
  }

  /** The resolver answers exactly when a readable Service has the port, and then with its declared number. */
  lemma ResolvedPortIsDeclared(c: Cluster, namespace: Str, name: Str, port: IntOrString)
    ensures var key := NamespacedName(namespace, name);
      var r := ResolveServicePort(c, namespace, name, port);
      && (r.Ok? <==> key !in c.unreadableServices && key in c.services && HasPort(c.services[key], port))
      && (r.Ok? ==> IsPortOf(c.services[key], port, r.value) && Declares(c.services[key], r.value))
  {
    var key := NamespacedName(namespace, name);
    if key in c.services && port.StringRef? && ParsePortNumber(port.s).None? {
      var ports := c.services[key].ports;
      if FirstNamed(ports, port.s).Some? {
        var i := FirstNamedIsFirst(ports, port.s);
        assert ports[i].port == FirstNamed(ports, port.s).value;
      }
    }
  }

  /** A number and any numeral for it name the same port; only the failure class differs. */
  lemma PortReferencesAgree(c: Cluster, namespace: Str, name: Str, n: int32, numeral: Str)
    requires 1 <= n <= 65535
    requires numeral == Decimal(n) || ParsePortNumber(numeral) == Some(n)
    ensures var a := ResolveServicePort(c, namespace, name, IntRef(n));
      var b := ResolveServicePort(c, namespace, name, StringRef(numeral));
      && ParsePortNumber(numeral) == Some(n)
      && (a.Ok? <==> b.Ok?)
      && (a.Ok? ==> a == b == Ok(n))
      && (if NamespacedName(namespace, name) in c.unreadableServices || NamespacedName(namespace, name) !in c.services
          then a == b
          else a.Err? ==> a.error.classes == {} && b.error.classes == {PortNotFound})
  {
    DecimalValue(n);
  }

  // ---- CA bundles ----

  function LoadCABundle(c: Cluster, namespace: Str, secret: Str, key: Str): Result<Pool, ResolveError> {
    var name := NamespacedName(namespace, secret);
    if !c.caBundles then Err(ResolveError({}, SecretsDisabled(name)))
    else if name in c.unreadableSecrets then Err(ResolveError({}, SecretUnreadable(name, c.unreadableSecrets[name])))
    else if name !in c.secrets then Err(ResolveError({ApiNotFound}, SecretNotFound(name)))
    else if key !in c.secrets[name] then Err(ResolveError({}, SecretKeyMissing(name, key)))
    else match c.secrets[name][key]
      case None => Err(ResolveError({}, NotPEM(name, key)))
      case Some(pool) => Ok(pool)
  }
}
