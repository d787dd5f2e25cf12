# Edge delivery pipeline: decision logic in Dafny

This project models the sequential decision logic of the Adobe Experience Platform Edge
mobile extension (iOS) and its legacy predecessor, and proves what that logic promises:

- **Legacy event-queue driver** (`ExperiencePlatformInternal`). A class keeps the
  `eventQueue` field as a sequence. `ProcessAddEvent` ignores events without data and
  appends the rest. `ProcessEventQueue` runs the `while !eventQueue.isEmpty` loop. Each
  round (`Round`) consults the configuration shared state of the **last** (most recent)
  event. It halts when the state is unavailable. When `experiencePlatform.configId` is
  missing, not a string, or empty, it logs that the event was removed and returns.
  The event is not actually removed: `_ = eventQueue.dropLast()` builds a shortened copy
  and discards it. So the code as written never shortens the queue, and every event with
  data stays in it. Otherwise the loop goes round again with nothing changed, because the
  request builder after the config check is not written yet. That loop does not
  terminate, so the model runs it for at most `fuel` rounds. The `Looping` outcome means
  the rounds ran out with the loop still going, and `ValidConfigIdLoopsForever` proves
  that a valid config id leads there for every bound. `IntendedRound` and `IntendedRun`
  model the removal the code evidently means (see "## Findings").
- **Edge readiness gate and enqueue** (`EdgeExtension`). `ReadyForEvent` is the gate over
  the configuration and identity shared-state statuses. The `Edge` class holds the
  optional hit queue. `HandleExperienceEventRequest` appends the `DataEntity` that
  `EntityFor` describes: keyed by the event id and timestamp, carrying the encoded event.
- **Hit processor** (`EdgeHitProcessing`). `processHit` and the callback adapter are
  functions that return the trace of actions they emit: the request, the calls forwarded
  to the response callback, and the `completion(Bool)` verdicts. The lemmas prove the
  retry contract. An undecodable entity is completed with `true` and never sent. A
  decoded hit is sent exactly once. A response completes with `true` and an error with
  `false`, each after forwarding, and `onComplete` never completes. The retry interval
  is the constant `RetryIntervalSeconds` (30 s) for every entity.
- **Environment type** (`EnvironmentTypes`). `FromRunMode` maps a run mode to an
  environment. Matching is exact and case-sensitive. `FromRunMode` inverts `RunModeOf` and
  never yields `Browser`, `Iot` or `External`. It is not an inverse of `RawValue`.

`EdgePipeline` connects the two Edge files. An entity queued for an event, once processed,
has every response, error and completion forwarded under that event's id.

Foreign calls become parameters:
- the JSON encoder is `encode: Event -> Option<Bytes>`;
- the JSON decoder is `decode: Bytes -> Option<EdgeHit>`;
- the legacy configuration lookup is `lookup: ExtensionEvent -> ConfigLookup` (threw / pending / available).
  The code calls `getSharedEventState` again in every round; being one fixed function,
  `lookup` assumes the host answers the same for the same event in every round, which is
  what `ValidConfigIdLoopsForever` relies on;
- the Edge shared-state lookups are `Option<SharedStateStatus>` values;
- the network service's calls on a request's callback are a sequence of `Callback`s;
- `Constants.Defaults.NETWORK_REQUEST_MAX_RETRIES` is the parameter `maxRetries`.

The event type and source constants (`com.adobe.eventType.edge`,
`com.adobe.eventSource.requestContent`) come from the SDK's naming. The constants file is
not part of this model. Only equality with these constants matters to every property.

Where the code's own documentation and the code disagree, the model follows the code:
- `processEventQueue` is documented as processing events "in the order they were
  received". The code takes `eventQueue.last`, so it serves the newest event first; with
  the intended removal the newest event is the one dropped (`AddedEventIsTheOneDropped`).
- `handleExperienceEventRequest` is documented as dropping an event when no `edge.configId`
  is found. It reads no configuration and drops no event for that reason: the only events
  it skips are those without data or that fail to encode (`EntityFor`).
- The unit tests (Tests/UnitTests/EdgeExtensionTests.swift:157-164) expect an event whose
  data is an empty dictionary to be ignored. The handler only checks that the data is not
  nil (Sources/Edge.swift:67), so such an event is encoded and queued, and `EntityFor`
  does the same. Those tests are written against a later `EdgeState`-based version of the
  extension class.

`EdgeHitProcessor` consults no privacy status, keeps no waiting-events table and no
retry-state map, and uses a constant 30 s retry interval. It decodes the stored entity,
issues the request for a decoded hit, and maps the callbacks to forwarded calls and
completion verdicts; the model does these three things and nothing more.

## Model

| member | source | states |
|---|---|---|
| EnvironmentTypes.FromRunMode | Sources/xdm/EnvironmentType.swift:25-33 | `.application` exactly for `"Application"`, `.widget` exactly for `"Extension"`, and nil for every other input, nil included (both directions) |
| EnvironmentTypes.RawValue | Sources/xdm/EnvironmentType.swift:15-20 | no raw value is empty; the definition gives each case its lower-case name as its raw value |
| EnvironmentTypes.FromRunModeRange | Sources/xdm/EnvironmentType.swift:25-33 | `from` never returns `.browser`, `.iot` or `.external` |
| EnvironmentTypes.FromRunModeInvertsRunModeOf | Sources/xdm/EnvironmentType.swift:26-30 | a run mode maps to an environment exactly when it is that environment's run mode |
| EnvironmentTypes.RawValueIsNoRunMode | Sources/xdm/EnvironmentType.swift:15-29 | `from` is not the inverse of `rawValue`: no raw value maps to any environment, because matching is case-sensitive |
| EdgeExtension.ReadyForEvent | Sources/Edge.swift:48-59 | an event that is not an Edge request content event is always ready; an Edge request is ready iff both the configuration and the identity shared states exist with status `.set` |
| EdgeExtension.NotReadyWithoutBothStates | Sources/Edge.swift:55 | a missing or non-`.set` configuration or identity state keeps an Edge request from being processed |
| EdgeExtension.EntityFor | Sources/Edge.swift:66-81 | no entity iff the event has no data or encoding fails; otherwise the entity's id is the event id, its timestamp the event timestamp, its data the encoded event |
| EdgeExtension.Edge.constructor | Sources/Edge.swift:84-95 | the hit queue is absent when the data queue cannot be created, else it holds what the data queue holds |
| EdgeExtension.Edge.HandleExperienceEventRequest | Sources/Edge.swift:66-81 | a missing hit queue stays missing; otherwise the queue gains exactly the one entity `EntityFor` gives at its end, or is unchanged when there is none |
| EdgeHitProcessing.ProcessHit | Sources/EdgeNetworkHandlers/EdgeHitProcessor.swift:32-45 | an entity with no data or undecodable data is completed with `true` and no request is made; a decoded hit issues exactly one request with its url, body and headers, `retryTimes` = the max-retries setting, the callback keyed by the entity's identifier, and no completion |
| EdgeHitProcessing.OnCallback | Sources/EdgeNetworkHandlers/EdgeHitProcessor.swift:54-67 | every callback is first forwarded exactly once, as the same call with the same payload, to the callback of the same request; then `onResponse` completes `true`, `onError` completes `false`, and `onComplete` completes nothing; no request is made |
| EdgeHitProcessing.OnCallbacksContract | Sources/EdgeNetworkHandlers/EdgeHitProcessor.swift:50-67 | over any sequence of callbacks the forwarded calls are exactly the callbacks received, in order, with their payloads; the completions are exactly the retry contract's verdicts, in order, each directly after a forwarded call; no request is made |
| EdgeHitProcessing.UndecodableIsDropped | Sources/EdgeNetworkHandlers/EdgeHitProcessor.swift:33-37 | an undecodable entity's whole attempt is one `completion(true)`: dropped, never sent, never retried |
| EdgeHitProcessing.DecodedIsSentOnce | Sources/EdgeNetworkHandlers/EdgeHitProcessor.swift:39-67 | a decoded hit's attempt issues exactly one request, first; its completions are exactly the callbacks' verdicts; its forwarded calls are the callbacks received, in order, all keyed by the entity's identifier |
| EdgeHitProcessing.NoVerdictOnlyOnComplete | Sources/EdgeNetworkHandlers/EdgeHitProcessor.swift:65-67 | a sent hit gets no verdict iff every callback it received was `onComplete` |
| EdgePipeline.QueuedEventCorrelation | Sources/Edge.swift:79-80 | an entity queued for an event, once processed, is sent once, with the callbacks forwarded in order and every forward keyed by the event id, or is dropped with `completion(true)` if its bytes do not decode |
| ExperiencePlatformInternal.Round | code/src/ACPExperiencePlatformInternal.swift:104-134 | one loop round never changes the queue; it loops again iff the last event's configuration is available with a non-empty string config id, and returns otherwise |
| ExperiencePlatformInternal.Run | code/src/ACPExperiencePlatformInternal.swift:98-140 | processing never changes the queue; it returns iff the queue is empty or the newest event's config id is not usable |
| ExperiencePlatformInternal.EmptyQueueUnchanged | code/src/ACPExperiencePlatformInternal.swift:99-101 | processing an empty queue returns with it unchanged |
| ExperiencePlatformInternal.UnavailableConfigHalts | code/src/ACPExperiencePlatformInternal.swift:113-124 | a lookup that throws or returns nil halts processing with no event removed |
| ExperiencePlatformInternal.InvalidConfigIdKeepsQueue | code/src/ACPExperiencePlatformInternal.swift:126-131 | an absent or empty config id makes processing return with every event kept, since the shortened copy `dropLast()` returns is discarded |
| ExperiencePlatformInternal.ValidConfigIdLoopsForever | code/src/ACPExperiencePlatformInternal.swift:126-134 | with a valid config id the loop never ends and the queue is never changed, for any number of rounds |
| ExperiencePlatformInternal.OnlyLastEventConsulted | code/src/ACPExperiencePlatformInternal.swift:106-115 | only the configuration of the most recent event influences the outcome |
| ExperiencePlatformInternal.DropLastIsDiscarded | code/src/ACPExperiencePlatformInternal.swift:126-131 | on a one-event queue whose configuration has no config id, the code keeps the event that the intended processing removes |
| ExperiencePlatformInternal.IntendedRound | code/src/ACPExperiencePlatformInternal.swift:95-96 | intended round: the queue stays or loses exactly its last event, and loses it iff the configuration is available without a usable config id; it loops again, unchanged, iff the config id is valid |
| ExperiencePlatformInternal.IntendedRun | code/src/ACPExperiencePlatformInternal.swift:92-131 | intended processing never adds or reorders events: the result is a prefix of the queue at most one event shorter, and a queue still being looped over is unchanged |
| ExperiencePlatformInternal.IntendedRunDiffersOnlyByRemoval | code/src/ACPExperiencePlatformInternal.swift:126-131 | the intended processing removes the last event where the code only logs a removal, and agrees with the code everywhere else |
| ExperiencePlatformInternal.InvalidConfigIdDropsLast | code/src/ACPExperiencePlatformInternal.swift:95-96 | intended processing: an absent or empty config id removes exactly the last event, and processing returns |
| ExperiencePlatformInternal.AddedEventIsTheOneDropped | code/src/ACPExperiencePlatformInternal.swift:107 | intended processing: after appending an event whose configuration lacks a usable config id, that very event is dropped and all earlier events remain, in order |
| ExperiencePlatformInternal.ExperiencePlatform.constructor | code/src/ACPExperiencePlatformInternal.swift:26 | the event queue starts empty |
| ExperiencePlatformInternal.ExperiencePlatform.ProcessEventQueue | code/src/ACPExperiencePlatformInternal.swift:98-140 | the queue is left unchanged, and the loop returns exactly when `Run` says it does |
| ExperiencePlatformInternal.ExperiencePlatform.ProcessAddEvent | code/src/ACPExperiencePlatformInternal.swift:76-90 | an event without data leaves the queue unchanged and triggers no processing; any other event is appended at the end, stays there, and the queue is then processed as `Run` describes |

## Findings

| source | as written | input that shows it | evidently intended | confidence | as-written member | corrected member |
|---|---|---|---|---|---|---|
| code/src/ACPExperiencePlatformInternal.swift:129 | `_ = eventQueue.dropLast()` builds a copy without the last event and discards it, so nothing is removed | queue `[e]` whose configuration state is available without `experiencePlatform.configId` | remove the last event, as the doc comment (lines 95-96) and the log (line 128) say | high; not executed | ExperiencePlatformInternal.DropLastIsDiscarded | ExperiencePlatformInternal.IntendedRun |

## Left out

- ExperiencePlatformInternal.ExperiencePlatform.ProcessEventQueue: runs at most `fuel` loop rounds. With a valid config id the source loop never exits; here the method returns `finished == false` with the queue unchanged.
- ExperiencePlatformInternal.ExperiencePlatform.ProcessAddEvent: takes the same `fuel` bound, for the same reason.
- ExperiencePlatformInternal.Round: has no branch for the `guard let event = eventQueue.last else { dropLast; continue }` fallback (lines 107-110). The loop only runs on a non-empty array, whose `last` is never nil, so that branch cannot be taken.
- Logging, listener registration, `name`/`version`, `onUnregister` shared-state clearing, `unexpectedError`, `hitQueue.close()`, `beginProcessing()` and `print`: host-runtime glue and I/O with no decision logic.
- `PersistentHitQueue`/`DataQueue`, `EdgeNetworkService`, `NetworkResponseHandler`, JSON encoding and decoding, and shared-state lookup are not part of this model. Each is a parameter or an abstract sequence. What the response handler does with forwarded calls is not modelled.
- The hit-processor construction at Sources/Edge.swift:90-93 passes `getSharedState` and `readyForEvent`, which the processor's initializer (Sources/EdgeNetworkHandlers/EdgeHitProcessor.swift:25) does not take. The processor is modelled as its own file defines it.
- Edge queues the JSON encoding of an `Event` but the processor decodes an `EdgeHit`. Whether one decodes as the other depends on the unseen JSON schemas, so `decode` is left arbitrary and both outcomes are proved.
- The event data and configuration values are opaque maps. Their XDM schema is not part of this model.
- `Edge`, `EdgeHitProcessor` and the legacy driver contain no streaming handling, no waiting-events table, no retry-state map, no backoff and no privacy suspension, so the model has none.
- `EdgeHit` is used as a record with the protocol's four fields plus `url` and `request`. The processor reads those two members, but the `EdgeHit` protocol (Sources/EdgeNetworkHandlers/EdgeHit.swift:17-37) does not declare them; it declares `getPayload()` instead. The processor also decodes the protocol type itself, and how that decoding works is not part of this model.
- ExperiencePlatformInternal.ExperiencePlatform.ProcessEventQueue: models the code as written, which keeps every event. The intended removal is modelled by `IntendedRun` only; no class method performs it.
- Consent behaviour appears only in the unit tests and is not modelled.
