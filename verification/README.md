# A verified model of the PostgreSQL gateway for Kubernetes

The gateway accepts PostgreSQL clients, reads the database name from the startup packet, and
relays each session to the backend that a `PostgresRoute` object names for that database. A control
loop turns the `PostgresRoute` objects of the cluster into a lookup table; a second one reports in
each object's status what became of it; a third one generates routes for labelled Services. This
project models that logic in Dafny and proves what it promises.

`dafny verify dfyconfig.toml` checks everything. The modules, in reading order:

| module | models |
|---|---|
| `Bytes`, `Streams` | byte strings, 32-bit words, numerals; connections as byte sequences that end or fail |
| `Protocol`, `Framing`, `Errors` | startup, cancel and key packets; framing of backend messages with one reused buffer; FATAL replies |
| `Api`, `Resolver`, `Registry` | route objects; port and CA lookups; conflict resolution and the lookup table |
| `RouteTable` | the rebuild loop as a step relation over cache changes, handlers, trigger, timer and single reads |
| `Notify`, `Status`, `StatusLoop` | who is told of a change; the status a route reports; status reporting as a step relation with a lagging cache and a lossy channel |
| `Cancel`, `Relay`, `Session` | the cancel-key registry; the backend-to-client relay; TLS negotiation and database selection |
| `ControlPlane` | the rebuild loop and the status loop as one machine over one cache |
| `Gateway`, `Server` | all sessions together: slots, tracked connections, keys, table swaps, cancellations, shutdown; one connection from accept to close, with all it reads and writes, as a run of it |
| `Discovery` | generated routes as a function of Services, in any order of reconciles |

A Go string is a sequence of bytes (`Str`). `int32` and `uint32` are bounded, and the conversions
between them are written out. Code that updates objects in place (`StartupPacket`,
`MessageReader`, the cancel registry, the event channel, the status object, the server's slots, the
generated routes) is a class whose methods are proved against functions on values. Concurrent code
is a state machine: `Enabled` and `Apply` give its atomic steps, `IsRun` its interleavings, and the
theorems quantify over every run from a start state.

## Where the code does less than its documentation

Each of these comes with the exact condition under which the promise holds, and with an input or a
whole run from a start state at which it fails.

- The startup packet forwarded without renaming is byte-identical to the client's exactly when the
  parameter list is closed by a single zero that is the packet's last byte (`ReencodeExact`,
  `UnrenamedIsVerbatim`). Other accepted packets are forwarded in a canonical form. A packet of
  10000 bytes whose list is not closed at all becomes one of 10001 bytes, which the gateway's own
  parser would refuse (`ReencodeCanonical`, `AcceptedButNotReread`).
- A missing port is reported as `PortNotFound` exactly when it is written as a string; a missing
  number is reported as `InvalidBackend`, like a Service whose read fails. `BackendNotFound` also
  stands for a missing CA Secret (`FailureReasonExact`, `MissingNumberIsInvalidBackend`,
  `MissingNumeralIsPortNotFound`, `MissingSecretIsBackendNotFound`).
- A rebuild whose List fails is not retried until something else triggers one
  (`FailedListIsNotRetried`); a run without failures that cannot go on is up to date
  (`StuckMeansCurrent`).
- An event dropped because the channel is full can leave a status stale with nothing pending
  (`DroppedEventStrandsStatus`, `DropStrandsFromStart`); `StatusCatchesUp` covers every other case. It
  lasts until the informer delivers the object again (`StatusCanCatchUp`).
- A status patch carries no resource version, so one that races with another writer is merged with
  what that wrote. The result reports the decision exactly when every owned field was outdated in the
  status read or is right in the stored one (`RacedWrite`); the next reconcile corrects the rest.
- A backend that sends a second `BackendKeyData` leaves the first key registered after the session
  (`SecondKeyLeaks`); what remains is exactly the superseded keys (`RelayIsItsEvents`,
  `ReturnedMeansQuiet`).
- Discovery does overwrite a hand-written route: one with the generated name, no `managed-by` label
  and no foreign controller (`SettleIsExact`, `HandWrittenRouteIsOverwritten`). Declaring a route
  overrides discovery exactly when it has a higher priority than the Service's annotation asks for,
  -100 without one, or the same and is older or earlier by name (`DeclaredRouteOverrides`,
  `AnnotationBeatsDeclaredRoute`).

Lists with two conditions of one type, which the API server's list-map key keeps out, are covered all
the same: a second reconcile is quiet exactly when every recorded condition behind the first of its
type says what that one will say (`SecondReconcile`, `OwnedDuplicateNeverSettles`,
`ForeignDuplicateNeverSettles`).

## Model

| member | source | states |
|---|---|---|
| `Bytes.WordRoundTrip` | src/internal/pgwire/protocol.go:198-214 | a 32-bit word written big-endian reads back as itself |
| `Bytes.BytesRoundTrip` | src/internal/pgwire/message.go:46-71 | and four bytes read as a word are written back as the same four |
| `Bytes.LexLessIsPrecedes` | src/internal/registry/registry.go:252-255 | one byte string is less than another exactly when it is a proper prefix of it or is smaller at the first byte where they differ |
| `Bytes.ItoaIsCanonical` | src/internal/registry/registry.go:86-89 | a number is written with its decimal digits, without a leading zero, behind a minus sign exactly if it is negative |
| `Bytes.TheTenDigits` | src/internal/registry/resolver.go:119-128 | what counts as a digit of a port numeral is exactly one of the characters 0 to 9 |
| `Streams.Stream.ReadInto` | src/internal/pgwire/message.go:66-68 | a full read fills exactly the requested cells and consumes exactly those bytes; a short one fills a prefix and tells end of stream from a cut body |
| `Protocol.ParseSound` | src/internal/pgwire/protocol.go:166-187 | every accepted parameter list is a well-formed list followed by nothing, or by a zero and anything |
| `Protocol.ParseComplete` | src/internal/pgwire/protocol.go:166-187 | every well-formed list, with any such ending, is accepted and yields exactly that list |
| `Protocol.ParseParametersLoop` | src/internal/pgwire/protocol.go:166-195 | the parsing loop computes the parser that the two lemmas above characterise, errors included |
| `Protocol.ReadStartupPacket` | src/internal/pgwire/protocol.go:112-162 | reads the packet or the error the decoding function gives, and leaves unread exactly the bytes behind it |
| `Protocol.StartupPacket.Find` | src/internal/pgwire/protocol.go:88-95 | the value of the first parameter with that key |
| `Protocol.StartupPacket.SetParameter` | src/internal/pgwire/protocol.go:99-107 | in place, replaces the first parameter with that key or appends one; nothing else moves |
| `Protocol.StartupPacket.Encode` | src/internal/pgwire/protocol.go:198-214 | the wire form that the round-trip lemmas are about |
| `Protocol.StartupRoundTrip` | src/internal/pgwire/protocol.go:112-214 | decode after encode is the identity for every encodable version-3 packet, whatever bytes follow, and those stay unread |
| `Protocol.ReencodeExact` | src/internal/pgwire/protocol.go:112-214 | encode after decode: the layout of every accepted packet, the exact change of length, and byte identity if and only if one zero closes the list as the last byte |
| `Protocol.ReencodeCanonical` | src/internal/pgwire/protocol.go:112-214 | the re-encoding is at most one byte longer and decodes to the same packet, unless it exceeds the 10000-byte limit by that byte |
| `Protocol.AcceptedButNotReread` | src/internal/pgwire/protocol.go:112-214 | a concrete packet of 10000 bytes that is accepted and re-encoded to 10001 bytes, which the parser refuses |
| `Protocol.CancelKeyRoundTrip` | src/internal/pgwire/protocol.go:141-149 | every key pair survives BackendKeyData and CancelRequest encoding, for all 32-bit signed values |
| `Framing.NextConsumesItsEncoding` | src/internal/pgwire/message.go:23-71 | a framed message, encoded again, is exactly the bytes that were consumed |
| `Framing.NextOfEncoding` | src/internal/pgwire/message.go:23-71 | an encoded message is framed back, leaving what follows unread |
| `Framing.FramingIsExact` | src/internal/pgwire/message.go:30-71 | for every message sequence and tail, framing yields exactly the messages and leaves exactly the tail |
| `Framing.MessageReader.Next` | src/internal/pgwire/message.go:46-71 | one read with the reused buffer refines the framing function; the buffer grows only to the body read and never past 2^20 - 4 bytes |
| `Framing.MessageReader.EncodeCurrent` | src/internal/pgwire/message.go:23-28 | the encoded copy shares no storage with the reader's buffer |
| `Framing.MessageReader.EncodeThenNext` | src/internal/proxy/relay.go:74-104 | the copy taken of one message survives the read that overwrites the buffer |
| `Framing.MessageReader.NextMany` | src/internal/pgwire/message.go:44-71 | repeated reads frame the stream and leave a buffer as large as the largest body so far |
| `Errors.EncodeErrorResponse` | src/internal/pgwire/message.go:86-114 | the loop over the fields yields the FATAL message that the next row is about |
| `Errors.ErrorResponseIsRead` | src/internal/pgwire/message.go:86-114 | a client frames that message, leaves what follows unread, and reads back exactly severity, SQLSTATE, message and, if any, detail |
| `Resolver.ResolvedPortIsDeclared` | src/internal/registry/resolver.go:47-86 | a port is returned exactly when the Service can be read, exists and has the number or name asked for, and it is that very number, or the port first declared under that name |
| `Resolver.PortReferencesAgree` | src/internal/registry/resolver.go:56-128 | the number n and any numeral for n succeed on the same Services with the same port; only the failure class differs, and not even that when the Service is missing or unreadable |
| `Registry.LessIsTotal` | src/internal/registry/registry.go:242-256 | the conflict order is irreflexive, asymmetric and total on routes with different keys |
| `Registry.LessIsTransitive` | src/internal/registry/registry.go:242-256 | the conflict order is transitive |
| `Registry.LessIsTheRule` | src/internal/registry/registry.go:242-256 | one route comes before another exactly as documented: by higher priority, else by earlier creation, else by namespace and name, compared by their first differing byte |
| `Registry.SortedIsUnique` | src/internal/registry/registry.go:197-201 | a set of routes has one sorted arrangement, so any correct sort gives the modelled one |
| `Registry.Build` | src/internal/registry/registry.go:196-240 | the building loop meets a specification without order: accepted are the least claimants, the others name that winner, the table holds exactly the resolved winners |
| `Registry.BuildMeetsSpec` | src/internal/registry/registry.go:196-240 | the same of the building function, for every route list with distinct keys and every resolver |
| `Registry.SpecDeterminesSnapshot` | src/internal/registry/registry.go:174-196 | that specification determines table and decisions uniquely |
| `Registry.WinnerExists` | src/internal/registry/registry.go:207-240 | every claimed name has a winner, at or before each claimant |
| `Registry.WinnerByTheRule` | src/internal/registry/registry.go:188-240 | the winner of d, from the fields of the routes alone: it claims d by its database field or, without one, by its name, and comes before every other route that does |
| `Registry.ReplicasAgree` | src/internal/registry/registry.go:174-256 | two listings of the same routes in any order give the same snapshot |
| `Registry.RoutableExactlyWhenWinnerResolved` | src/internal/registry/registry.go:207-240 | a name is in the table if and only if its winner resolved, with the winner as source and its endpoint as address; an unresolved winner yields it to nobody |
| `Registry.ProgrammedMeansServing` | src/internal/registry/registry.go:158-172 | a decision is Programmed if and only if the table routes that name through that very route |
| `Registry.ClusterAnswersAreFaithful` | src/internal/registry/registry.go:266-312 | resolved routes carry the key, database and target database of the route they come from |
| `Registry.AddressIsDialledBack` | src/internal/registry/registry.go:86-89 | the address of a route is taken apart into its very host and port, exactly unless the host has brackets of its own |
| `Registry.TableHonoursRoutes` | src/internal/registry/registry.go:266-342 | every table entry of a build has a winner by that rule and carries its key, its name and the target its fields ask for; it leads to the backend the winner names, on the very port it asks its Service for, under exactly the TLS policy asked for; a requested CA is never replaced by system trust |
| `RouteTable.NoLostUpdate` | src/internal/controller/routetable.go:94-198 | in every run an unconsumed change is still on its way; at quiescence after a clean rebuild the published snapshot is the build of the current cache; rebuilds never exceed one plus the schedule calls |
| `RouteTable.PublishedIsBuilt` | src/internal/controller/routetable.go:167-198 | in every run the published snapshot is the build of what its rebuild listed and heard, failed reads and disturbed rebuilds included; once an undisturbed rebuild has published, it is the snapshot the cache calls for, where only a route whose own read failed has that failure for an answer |
| `RouteTable.OtherFailuresAreHarmless` | src/internal/registry/registry.go:43-47 | in every such state a winner whose own reads succeeded is in the table at the address it resolves to, or absent if it does not resolve, whatever failed for other routes |
| `RouteTable.CleanMeansCurrent` | src/internal/controller/routetable.go:167-198 | and if no read failed, the reads spread over time add up to one build of the cache |
| `RouteTable.StepPreserves` | src/internal/controller/routetable.go:94-198 | every step of handlers, trigger, timer, list, reads and publish keeps the loop invariant |
| `RouteTable.StepsAreCounted` | src/internal/controller/routetable.go:94-139 | in every run handlers in flight, schedule calls and rebuilds are one for each change, handler call and timer, and the cache is as last changed |
| `RouteTable.PublishedIsShaped` | src/internal/controller/routetable.go:167-198 | in every run, failed reads and disturbed rebuilds included, every published decision has the shape of Build's, with a reason fixed by its message |
| `RouteTable.LoopSettles` | src/internal/controller/routetable.go:114-139 | once the cluster stops changing every step decreases a lexicographic measure, and a step in which nothing fails is possible exactly until quiescence |
| `RouteTable.LoopCanSettle` | src/internal/controller/routetable.go:114-139 | from every state of every run some run without failures reaches quiescence |
| `RouteTable.StuckMeansCurrent` | src/internal/controller/routetable.go:94-198 | a run without failures that cannot be continued has published the build of the current cache |
| `RouteTable.FailedListIsNotRetried` | src/internal/controller/routetable.go:167-176 | a failed List leaves the loop quiescent with an outdated table |
| `Notify.NotifyChanged` | src/internal/controller/routetable.go:200-230 | every affected route gets one event or is dropped, no route gets two, and drops happen only with the channel full |
| `StatusLoop.NotifyChangedIsARun` | src/internal/controller/routetable.go:200-230 | whatever notifyChanged reports as sent and dropped is what some run of the status loop's notification steps does to channel and dropped set |
| `Notify.EventChannel.TrySend` | src/internal/controller/routetable.go:222-230 | a send succeeds exactly when there is room, and appends |
| `Notify.TableIsLocal` | src/internal/registry/registry.go:207-240 | adding or deleting a route changes no table entry of another database name |
| `Notify.DecisionIsLocal` | src/internal/registry/registry.go:207-240 | it changes the decision of another route exactly when that route claims the same name and the added route wins it |
| `Notify.AddedRouteAffects` | src/internal/controller/routetable.go:208-244 | the notified routes after an addition are all claimants of the name if the new route wins it, else only the new route |
| `Notify.DeletedRouteAffects` | src/internal/controller/routetable.go:208-244 | after a deletion they are the remaining claimants if the deleted route held the name, else none |
| `Status.StatusObject.SetCondition` | src/internal/controller/postgresroute_controller.go:112-177 | sets one condition in place, keeping its transition time unless the status flips, and leaves all others |
| `Status.StatusObject.ApplyConditions` | src/internal/controller/postgresroute_controller.go:112-177 | the in-place update equals the projection of the decision onto the recorded status |
| `Status.Reconcile` | src/internal/controller/postgresroute_controller.go:59-107 | the desired status reports the decision, and a write happens if and only if the recorded one does not or has a disagreeing later condition |
| `Status.WritesExactlyWhenStale` | src/internal/controller/postgresroute_controller.go:79-107 | the statuses compare equal exactly when the recorded one reports the decision and its conditions behind the first of a type agree; with one condition a type, exactly when it reports |
| `Status.SecondReconcile` | src/internal/controller/postgresroute_controller.go:79-217 | reconciling again changes nothing, and writes nothing exactly when the conditions behind the first of their type, in the status recorded at the start, say what that one will say |
| `Status.DisagreeingDuplicatesNeverSettle` | src/internal/controller/postgresroute_controller.go:198-217 | one later condition, of an owned or a foreign type, that says something else makes every reconcile write |
| `Status.OwnedDuplicateNeverSettles` | src/internal/controller/postgresroute_controller.go:198-217 | a status with a second, disagreeing Accepted condition is written on every reconcile |
| `Status.ForeignDuplicateNeverSettles` | src/internal/controller/postgresroute_controller.go:198-217 | so is a status with two disagreeing conditions of a foreign type |
| `Status.ForeignConditionsStay` | src/internal/controller/postgresroute_controller.go:112-177 | conditions of other types keep position and content |
| `Status.ConditionsCohere` | src/internal/controller/postgresroute_controller.go:112-177 | Programmed is True exactly when Accepted and Resolved both are; a rejected route has no endpoint |
| `Status.StatusTellsTheTruth` | src/internal/controller/postgresroute_controller.go:79-177 | a reported status says of the built table, for every route: whether it won its name, whether and to which address connections are routed, else which winner is in the way or which failure; each owned condition with its exact status, reason, message and generation |
| `Status.UnchangedProjectsAlike` | src/internal/controller/routetable.go:236-251 | decisions that count as unchanged project to equal statuses, so skipping their event is safe |
| `Status.ClusterAnswersAreLegible` | src/internal/controller/postgresroute_controller.go:183-194 | failures with one message have one reason, for every route and cluster, unreadable Services and Secrets included |
| `Status.BuildIsShaped` | src/internal/registry/registry.go:196-240 | every decision of a build is accepted with an endpoint or a legible error, or rejected with neither |
| `Status.FailureReasonExact` | src/internal/controller/postgresroute_controller.go:183-194 | from route and cluster alone: when a route resolves, and for each reason exactly which missing, unreadable or malformed object makes it report that reason |
| `Status.MissingNumberIsInvalidBackend` | src/internal/registry/resolver.go:57-64 | a Service without the port asked for as a number is reported as InvalidBackend |
| `Status.MissingNumeralIsPortNotFound` | src/internal/registry/resolver.go:66-75 | the same port asked for as a numeral is reported as PortNotFound |
| `Status.MissingSecretIsBackendNotFound` | src/internal/registry/resolver.go:97-101 | a missing CA Secret is reported as BackendNotFound although the Service is there |
| `StatusLoop.StatusCatchesUp` | src/internal/controller/routetable.go:175-244 | in every run a live route with a stale status is still to be notified, in the channel, queued, being reconciled, or behind in the cache, unless its own event was dropped |
| `StatusLoop.IdleStatusIsHonest` | src/internal/controller/postgresroute_controller.go:59-107 | with nothing pending for it, a route's status reports its decision, and Programmed is True exactly when it is programmed |
| `StatusLoop.UnracedWriteReports` | src/internal/controller/postgresroute_controller.go:87-107 | a reconcile whose object is still the stored one leaves it reporting the decision loaded, its spec, generation and all other objects untouched, and writes nothing if it already did |
| `StatusLoop.RacedWrite` | src/internal/controller/postgresroute_controller.go:91-100 | when others wrote in between: the merge patch leaves a status that reports the decision exactly when every owned field was sent or left right by them, and conditions of other types are theirs only if no condition was sent |
| `StatusLoop.StatusCanCatchUp` | src/internal/controller/postgresroute_controller.go:59-107 | from every state of every run, whatever was dropped, failed or raced, some run in which nobody else writes and nothing new is published ends with nothing pending for a live route and its status up to date |
| `StatusLoop.UndecidedIsRetried` | src/internal/controller/postgresroute_controller.go:71-77 | a cached route that is reconciled before it has a decision stays queued or in reconcile, in every run, until one is published or it goes away |
| `StatusLoop.DroppedEventStrandsStatus` | src/internal/controller/routetable.go:222-230 | in any state with the channel full, a drop leaves a stale status with nothing pending |
| `StatusLoop.DropStrandsFromStart` | src/internal/controller/routetable.go:208-230 | a whole run from election: a quiet reconcile, a new decision, a full channel of any positive capacity, and a status left at the old endpoint with nothing pending |
| `StatusLoop.StepPreserves` | src/internal/controller/postgresroute_controller.go:59-107 | every step, including merge patches racing with other writers and requeues, keeps the invariant behind the theorems |
| `ControlPlane.RepublishIsAdmitted` | src/internal/controller/routetable.go:175-220 | every snapshot the rebuild loop can publish, in any run, is one the status loop's theorems cover |
| `ControlPlane.TruthAtRest` | src/internal/controller/routetable.go:94-244 | in every run of both loops over one cache: rebuild loop quiescent after a rebuild that could list, nothing pending for a live route and its event not dropped, imply that its recorded status tells the truth about the spec and generation stored beside it, given the cached routes, Services and Secrets and, if its own read failed, that failure; without lag those are the stored routes |
| `Cancel.CancelRegistry.Issue` | src/internal/proxy/cancel.go:37-49 | the issued key is fresh with a non-negative process ID, the first free one drawn, and maps to the entry; other entries stay |
| `Cancel.CancelRegistry.Lookup` | src/internal/proxy/cancel.go:52-57 | finds exactly the registered keys, with their entries |
| `Cancel.CancelRegistry.Release` | src/internal/proxy/cancel.go:60-64 | removes that key and no other |
| `Cancel.DrawsOfKey` | src/internal/proxy/cancel.go:75-88 | a key with a non-negative process ID comes from exactly two draws of eight bytes, its own encoding and the one with the sign bit set |
| `Cancel.FreeKeyCanBeDrawn` | src/internal/proxy/cancel.go:75-88 | while fewer than 2^63 keys are held, some draw yields a free key |
| `Cancel.CyclicIsFair` | src/internal/proxy/cancel.go:75-88 | a generator as the registry needs it exists: the one that draws all keys in turn |
| `Relay.RelayFromBackend` | src/internal/proxy/relay.go:62-121 | for every backend stream and every amount of room the client has left: how the relay ends, which the two fix, what the client has received, and which keys remain registered, namely the superseded ones only; the client counts as gone only with its room used up |
| `Relay.EndingIsFixed` | src/internal/proxy/relay.go:74-120 | the relay's account of itself leaves no choice of the ending: gone exactly when the client cannot take what the stream needs, else what stands at the first stopping point |
| `Relay.SplicedExactly` | src/internal/proxy/relay.go:114-119 | a session is spliced exactly when the stream has a ReadyForQuery behind well-formed frames and the client can take all of it |
| `Relay.RelayIsTransparent` | src/internal/proxy/relay.go:62-130 | a session reaching ReadyForQuery sees as many bytes as were sent, equal everywhere but in the eight key bytes of key messages before it |
| `Relay.SplitAtStopIsUnique` | src/internal/proxy/relay.go:74-120 | where parsing stops, at a framing error, a ReadyForQuery or a malformed key, is fixed by the stream, whatever follows looks like |
| `Relay.Splice` | src/internal/proxy/relay.go:123-130 | copies the rest of the stream verbatim, or a prefix when the client fails |
| `Relay.ForwardCancel` | src/internal/proxy/relay.go:134-182 | dials the entry's address under its TLS policy and writes the backend's own key, all of it or what fits; an unknown key dials nothing; each outcome has its exact condition |
| `Relay.KeySurvivesEveryHop` | src/internal/pgwire/protocol.go:217-243 | the key a client reads off its rewritten message comes back as the same registry key, and the cancel packet delivered carries the very key bytes of the backend's message |
| `Session.Negotiate` | src/internal/proxy/session.go:163-223 | the negotiation loop refines the automaton and is safe: at most four packets, at most one upgrade reply, encrypted exactly after an upgrade, never an SSL or GSS request as startup packet, required TLS enforced for all but cancel requests |
| `Session.NegotiationIsSafe` | src/internal/proxy/session.go:163-223 | the same safety for every configuration, stream, bound and write failure |
| `Session.StartupPacketIsTaken` | src/internal/proxy/session.go:169-222 | by packet code and configuration alone: any packet but an SSL or GSS request is taken at once, except exactly an ordinary one without TLS where TLS is on and required |
| `Session.DeclinedRequest` | src/internal/proxy/session.go:169-195 | a GSS request, and an SSL request with TLS off, is answered N and the next packet is judged as if it came first |
| `Session.AcceptedUpgrade` | src/internal/proxy/session.go:182-203 | an SSL request on a plain connection with TLS on is answered S, and negotiation goes on inside the handshake or ends with its failure |
| `Session.NegotiationFails` | src/internal/proxy/session.go:163-223 | the remaining endings: no round left, an unreadable packet, a second SSL request inside TLS, a reply that cannot be written |
| `Session.DeclinedClientIsServed` | src/internal/proxy/session.go:165-223 | a client that sends up to three requests with declinable codes and then a startup packet the configuration allows is answered one N for each and served with exactly that packet and the bytes behind it |
| `Session.TLSClientIsServed` | src/internal/proxy/session.go:165-223 | a client whose SSL request the configuration takes is answered S, and one that completes the handshake is served over it with its next packet, also where TLS is required |
| `Session.AskedDatabase` | src/internal/proxy/session.go:95-105 | the database asked for is the value of the first database parameter, without one that of the first user parameter, and none exactly when both are missing |
| `Session.Handle` | src/internal/proxy/session.go:95-140 | which database is asked for, which route is taken, exactly when nothing is written, and the bytes written to the backend, also when it takes only some of them |
| `Session.SelectionEndToEnd` | src/internal/proxy/session.go:95-137 | a packet asking for d is forwarded as one asking for the target that the fields of d's winner name, all other parameters unchanged and in order, at most eleven bytes plus the target's length longer |
| `Session.UnrenamedIsVerbatim` | src/internal/proxy/session.go:131-137 | without renaming, the forwarded packet is byte-identical exactly under the condition of ReencodeExact |
| `Gateway.CountedPreserved` | src/internal/proxy/session.go:31-71 | every step keeps filled slots equal to slots held and tracked connections equal to sessions inside serve |
| `Gateway.KeyedPreserved` | src/internal/proxy/relay.go:62-121 | every step keeps registry entries accounted for by live sessions or superseded keys, owners unique and forwards traceable |
| `Gateway.AdmissionIsBounded` | src/internal/proxy/session.go:55-71 | in every run filled slots equal sessions holding one, never exceed a positive limit, and giving one back never blocks |
| `Gateway.ReturnedMeansQuiet` | src/internal/proxy/server.go:135-252 | when Start has returned no slot is held, no connection tracked, and no key left, the last exactly when no backend sent a second key |
| `Gateway.DrainCanComplete` | src/internal/proxy/server.go:216-240 | no session can block another: from every drain any run reaches, some run lets Start return |
| `Gateway.RegistryIsExact` | src/internal/proxy/cancel.go:27-64 | in every run, key by key: registered exactly when a live session owns it or a later key of its session superseded it, never both, with at most one owner |
| `Gateway.CancelReachesOwner` | src/internal/proxy/relay.go:134-174 | in every run a cancel of an owned key goes to its owner's destination with its backend's key, and one reaches no backend exactly when its key is neither owned nor superseded |
| `Gateway.KeysComeFirst` | src/internal/proxy/relay.go:74-119 | in every run, from ReadyForQuery on a session takes no further key, and its key and destination stay what they were |
| `Gateway.CancelFollowsTheLookup` | src/internal/proxy/session.go:107-137 | however often the table is replaced since, a cancel goes to the backend the table named when the session looked its database up |
| `Gateway.ForwardsAreTraceable` | src/internal/proxy/relay.go:134-174 | every cancellation ever sent on carries a destination and a key of one and the same session |
| `Gateway.SecondKeyLeaks` | src/internal/proxy/relay.go:65-71 | a whole run from start to return, whatever limit, table and keys: one client, two keys before ReadyForQuery, and the first key still registered |
| `Gateway.RelayIsItsEvents` | src/internal/proxy/relay.go:62-121 | the registry effect promised by the relay method is the effect of the session's events in the gateway machine |
| `Gateway.LoneSessionLeaves` | src/internal/proxy/server.go:135-252 | for any number of keys, what a single session from start to return leaves in the registry: exactly the superseded keys |
| `Server.Server.Serve` | src/internal/proxy/session.go:31-53 | serve as a whole, negotiation, cancellation, selection and relay included: the client's bytes, the table, the network and each peer's room fix the connection's fate and what client, backend and cancel connection receive; slots and tracked connections restored on every path, refusal exactly at a positive limit, the registry grown by superseded keys only |
| `Server.Server.Handle` | src/internal/proxy/session.go:73-161 | the same of an admitted connection, after the replies of the negotiation |
| `Server.Server.AcquireSlot` | src/internal/proxy/session.go:55-65 | refuses exactly when a positive limit is reached, and then takes no slot |
| `Server.ServeIsARun` | src/internal/proxy/session.go:31-53 | what serve promises is a run of the gateway machine from every reachable state, with exactly the cancellations it sent on recorded |
| `Server.RoutedEndToEnd` | src/internal/proxy/session.go:73-161 | every connection routed to d asks its backend for the target that the fields of d's winner name, other parameters unchanged, and a client with room sees a backend that gets to ReadyForQuery unchanged in length and in every byte outside the keys |
| `Server.FinalWordsAreRead` | src/internal/proxy/session.go:31-161 | what a client is told at the end: nothing, or a FATAL message that it reads back with SQLSTATE 53300 when refused, 08P01 without required TLS or a database, 3D000 without a route and 08006 without a backend |
| `Discovery.GeneratedKeysDiffer` | src/internal/controller/servicediscovery_controller.go:235-242 | distinct Services have distinct generated route keys |
| `Discovery.AnnotatedPriority` | src/internal/controller/servicediscovery_controller.go:200-210 | an override annotation holding the numeral of any int32 gives that priority |
| `Discovery.PriorityIsExact` | src/internal/controller/servicediscovery_controller.go:200-210 | the priority is the value of the annotation when that is an optional sign and digits in range, and -100 without one or with anything else there |
| `Discovery.PortPrecedence` | src/internal/controller/servicediscovery_controller.go:212-233 | without an annotation the port is the first one named postgresql or postgres, else 5432 if declared, else the only one, else 5432 |
| `Discovery.AnnotatedPort` | src/internal/controller/servicediscovery_controller.go:213-219 | an annotated port is a number if it is an optional sign and digits in the int32 range, else a name |
| `Discovery.GeneratedPortResolves` | src/internal/controller/servicediscovery_controller.go:212-233 | the generated port reference resolves if and only if the Service can be read and offers the annotated port, a postgres port, 5432 or a sole port |
| `Discovery.RouteStore.Reconcile` | src/internal/controller/servicediscovery_controller.go:95-163 | the reconcile refines the step function, fails exactly when the name is not free to take, and then changes nothing |
| `Discovery.RouteStore.DeleteGeneratedRoute` | src/internal/controller/servicediscovery_controller.go:165-191 | deletes the generated route exactly when it carries this controller's label and this Service's UID as controller |
| `Discovery.UpsertTakesControl` | src/internal/controller/servicediscovery_controller.go:145-145 | setting the controller reference makes this Service the controller, leaves the references to other owners, and repeating it changes nothing |
| `Discovery.SettleIsExact` | src/internal/controller/servicediscovery_controller.go:120-191 | in scope a route is published exactly when the name was free, keeping target database, TLS and other labels; out of scope it goes exactly when it is the Service's own |
| `Discovery.RunReachesTarget` | src/internal/controller/servicediscovery_controller.go:94-163 | any sequence of reconciles reaches a target stated key by key, without order |
| `Discovery.DiscoveryIsConfluent` | src/internal/controller/servicediscovery_controller.go:94-191 | two sequences reconciling the same Services, in any order and with any repetition, end with the same routes |
| `Discovery.ForeignRoutesStay` | src/internal/controller/servicediscovery_controller.go:121-126 | no run changes or deletes a route labelled as another manager's |
| `Discovery.DeletionIsExact` | src/internal/controller/servicediscovery_controller.go:174-190 | a run deletes a route if and only if a reconciled Service out of scope owns it by label and UID |
| `Discovery.ServicesArePublished` | src/internal/controller/servicediscovery_controller.go:113-146 | after any run a reconciled Service in scope has its route exactly when the name was free |
| `Discovery.HandWrittenRouteIsOverwritten` | src/internal/controller/servicediscovery_controller.go:120-146 | an unlabelled, unowned route under the generated name is overwritten by the first reconcile |
| `Discovery.PublishedRouteResolves` | src/internal/controller/servicediscovery_controller.go:134-143 | a published route, adopted ones with TLS settings included, resolves exactly when its Service can be read and offers a port and the CA bundle it asks for is there, to that Service's own DNS name and the port chosen for it |
| `Discovery.DeclaredRouteOverrides` | src/internal/controller/servicediscovery_controller.go:45-47 | a generated route, annotated or not, is turned down if and only if a rival has a higher priority than its Service asks for, or the same and is older or earlier by name |
| `Discovery.AnnotationBeatsDeclaredRoute` | src/internal/controller/servicediscovery_controller.go:203-210 | a Service annotated with any positive priority keeps its name from a declared route of default priority |

## Left out

- TLS handshakes, certificate checks and PEM parsing: an upgrade succeeds with some plaintext stream or fails; a CA pool is an opaque value.
- `Server.Server.Serve` runs one connection without interleaving; `Gateway` interleaves its steps with those of all others. Which addresses answer and which TLS upgrades succeed is a parameter (`Network`), and so is the table it looks its database up in.
- Sockets, dialling, deadlines, keepalives and half-close: a connection is a byte sequence that ends or fails at any point; the client-to-backend copy is not modelled.
- The forced close at the end of the shutdown grace period: whether peers hang up is up to them. `DrainCanComplete` says that nothing in the gateway itself stands in the way.
- Randomness: draws come from an arbitrary sequence that does not avoid free keys for ever (`Fair`), which is what makes the loop in `issue` end. A failing entropy source, on which the source panics, is not modelled.
- `Cancel.CancelRegistry.Issue` and `Relay.RelayFromBackend` ask for fewer than 2^63 registered keys; beyond that the source would draw forever.
- The bound on each read in a rebuild appears as a read that fails, not as a clock. The message of a failing read is taken to differ from that of a NotFound.
- Text of errors, conditions and log lines: kept as the format plus its arguments, so that equal texts mean equal arguments; the wording is not rendered. The message and detail of FATAL replies are a parameter of the server; their encoding and SQLSTATEs are modelled.
- `sort.SliceStable` is a sort by insertion; `SortedIsUnique` shows that any correct sort gives the same sequence.
- The atomic pointer that publishes the table: one atomic step, `Publishes` or `Republishes`.
- Kubernetes client, informers, work queue rate limits, leader election, garbage collection, admission validation and creation timestamps of generated routes: only cache contents, handler calls and reconciles appear. `CreateOrUpdate` and `SetControllerReference` are modelled by what they do to the object; update conflicts in discovery, which only requeue, are not.
- Metrics, logging, health probes, flags, backoff of the accept loop, Helm chart, CRD YAML and generated code.
