/** The PostgresRoute resource, and the cluster objects a route refers to. */
module Api {
  import opened Bytes

  datatype NamespacedName = NamespacedName(namespace: Str, name: Str) {
    function Show(): Str { namespace + Ascii("/") + name }
  }
  const NO_NAME := NamespacedName([], [])

  datatype IntOrString = IntRef(n: int32) | StringRef(s: Str) | UnknownRef

  datatype ServiceBackend = ServiceBackend(name: Str, namespace: Str, port: IntOrString)
  datatype AddressBackend = AddressBackend(host: Str, port: int32)
  datatype BackendType = ServiceType | AddressType | UnknownType(name: Str)
  datatype Backend = Backend(kind: BackendType, service: Option<ServiceBackend>, address: Option<AddressBackend>)

  datatype TLSMode = UnsetMode | Disable | Require | VerifyCA | VerifyFull | UnknownMode(name: Str)
  datatype SecretKeyReference = SecretKeyReference(name: Str, key: Str)
  datatype BackendTLS = BackendTLS(mode: TLSMode, caSecretRef: Option<SecretKeyReference>, serverName: Str)

  datatype RouteSpec = RouteSpec(
    database: Str, targetDatabase: Str, backend: Backend, tls: Option<BackendTLS>, priority: int32)

  datatype PostgresRoute = PostgresRoute(namespace: Str, name: Str, created: int, spec: RouteSpec) {
    function Key(): NamespacedName { NamespacedName(namespace, name) }

    function EffectiveDatabase(): Str {
      if spec.database != [] then spec.database else name
    }

    function EffectiveTargetDatabase(): Str {
      if spec.targetDatabase != [] then spec.targetDatabase else EffectiveDatabase()
    }
  }

  datatype ServicePort = ServicePort(name: Str, port: int32)
  datatype Service = Service(ports: seq<ServicePort>)

  /** A parsed certificate pool, by its contents. */
  type Pool = Str

  /**
   * What the informer caches hold besides routes; a Secret key maps to None when it is not PEM. A
   * read of an unreadable object fails with that cause, which is never a NotFound.
   */
  datatype Cluster = Cluster(
    services: map<NamespacedName, Service>,
    secrets: map<NamespacedName, map<Str, Option<Pool>>>,
    unreadableServices: map<NamespacedName, Str>,
    unreadableSecrets: map<NamespacedName, Str>,
    caBundles: bool,
    domain: Str)
}
