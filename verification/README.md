# Verified model of the stateful protocols of the framework

The project models, and proves properties of, the parts of the repository that keep state across asynchronous events:

- **WebSocket subscriptions.** The tables of both providers, the coordinator beside them, and the Redis channel
  protocol: subscribe, unsubscribe and disconnect calls interleaved in any way with commands, replies, failures and
  retry timers (`SocketValidation`, `SocketTables`, `InProcProvider`, `SocketCoordinator`, `RedisProvider`,
  `RedisProtocol`).
- **Cascade cache invalidation.** From the entity registry through the configuration builder and key generation to the
  cache service and the Redis store: which entries an invalidation removes, on any instance
  (`EntityRegistry`, `CacheBuilder`, `KeyGenerator`, `RedisCache`, `CacheService`, `Cascade`, `CacheRegistry`).
- **Saga workflows.** Step groups, the concurrency pool, compensation, flow status and timeouts, and the agreement of
  the two executors (`WorkflowPool`, `Workflow`, `WorkflowFlows`).
- **Dependency injection.** Cycle detection, validation and recursive resolution (`Graphs`, `DependencyValidator`,
  `Container`).
- **Four smaller components.** Request sharing and `getOrSet` (`Singleflight`, `CacheFetch`), the log buffer
  (`LogBuffer`), event idempotency (`EventIdempotency`) and durations (`Duration`).

Objects that the source updates in place are classes with the same fields; each method's contract equates the new
state with a function of the old one, and the lemmas are about those functions and about whole runs of them. Events that
the environment decides (replies, failures, timers, completion order, time) are values in a sequence of events, and the
main results quantify over every such sequence. Clocks are integers of milliseconds; a call or Lua script to Redis is one
atomic step; the hash is any function, and injective only where a lemma says so.

## What the code does other than it promises

- `subscribeToTopic` of the coordinator records a subscription before the provider validates the ids, so a malformed
  topic splits the tables until it is unsubscribed, and removing the connection throws meanwhile:
  `ReachableTablesAreOneRelation` and `RemovalLeavesNoTrace` state exactly when, `MalformedTopicSplitsTables` is a
  concrete case.
- A write that expires puts an expiry on a meta set that an earlier write without expiry relies on:
  `WriteKeepsTrackExactly` and `RunsKeepTrack` state exactly which writes lose track of an entry, `MixedWritesLoseTrack`
  is a concrete case.
- Redeclaring a built service, or giving a value for a token others were built with, can leave instances that do not
  match their declarations: `RedeclaringIsExact` and `ReplacingIsExact` state exactly when, `RedeclaredService` and
  `ReplacedInstance` are concrete cases.
- Unless they share a tag or the parameters passed are exactly those of one of its lists, an instance finds an entry
  only through the parameter lists of configurations it has seen: `EntryIsFoundExactly` states when for any instance,
  `UnseenConfigurationIsFoundExactly` for one that has seen no configuration at all, and `UnseenEntrySurvives` is a
  concrete case.
- A workflow whose `onError` throws before a timeout is rejected while its status stays `running`, and its flow id is
  never freed: `ReachableFlows` states this is the only exception, `EscapedFlowIsStuck` its consequence, and
  `ThrowingErrorHandlerEscapes` is a concrete case.
- Eviction of event ids skips the empty id: `TableFitsExactly` states when the table outgrows its size,
  `EmptyIdIsNotEvicted` is a concrete case.
- `formatDuration` accepts more than a year, `parseDuration` does not: `ParsingUndoesFormatting`.

## Model

| member | source | states |
|---|---|---|
| SocketValidation.TopicsAreExact | packages/websocket/src/validation.ts:36-49 | a topic is valid if and only if it has 1 to 256 characters, all of them letters, digits, underscores, colons, dots or hyphens |
| SocketValidation.SocketIdsAreExact | packages/websocket/src/validation.ts:15-73 | a socket id is valid if and only if it has groups of 8, 4, 4, 4 and 12 hexadecimal digits with version 4 and its variant, in either case |
| SocketValidation.SocketIdExamples | packages/websocket/src/validation.ts:30-64 | the documented examples of valid and invalid ids and topics |
| SocketTables.TablesExtensional | packages/websocket/src/in-proc-provider.ts:28-50 | the three tables without empty sets are determined by the relation they answer lookups for |
| SocketTables.AddIndexes | packages/websocket/src/in-proc-provider.ts:182-205 | subscribing turns the index of a relation into the index of the relation with the pair |
| SocketTables.RemoveIndexes | packages/websocket/src/in-proc-provider.ts:212-235 | unsubscribing turns it into the index of the relation without the pair, leaving no empty set |
| SocketTables.RemoveEarlyExitIndexes | packages/websocket-redis/src/redis-websocket-provider.ts:590-621 | so does the Redis provider, which leaves early when the topic has no subscriber |
| SocketTables.DisconnectIndexes | packages/websocket/src/in-proc-provider.ts:243-262 | disconnecting removes all pairs of the socket and nothing else |
| SocketTables.ProvidersIndexTheSameRelation | packages/websocket-redis/src/redis-websocket-provider.ts:478-653 | on every call sequence both providers hold the canonical index of the live subscriptions, which is defined without tables |
| InProcess.InProcWsProvider.Subscribe | packages/websocket/src/in-proc-provider.ts:182-205 | the in-place method has the effect of a subscribe call and throws exactly for a malformed id, then changing nothing |
| InProcess.InProcWsProvider.Unsubscribe | packages/websocket/src/in-proc-provider.ts:212-235 | likewise for unsubscribe |
| InProcess.InProcWsProvider.Disconnect | packages/websocket/src/in-proc-provider.ts:243-262 | the loop over the socket's topics has the effect of a disconnect call |
| Coordination.SubscribeKeepsOneRelationExactly | packages/websocket/src/socket-coordinator.ts:84-115 | the tables of coordinator, connections and provider stay views of one relation if and only if a connected socket does not subscribe with malformed ids |
| Coordination.UnsubscribeKeepsOneRelation | packages/websocket/src/socket-coordinator.ts:123-147 | an unsubscribe, even with malformed ids, keeps all tables views of the relation without the pair |
| Coordination.RemovalKeepsOneRelation | packages/websocket/src/socket-coordinator.ts:61-76 | from tables of one relation a removal does not throw, in whatever order it cleans, and keeps all tables views of the relation without the socket |
| Coordination.OneRelationExactly | packages/websocket/src/socket-coordinator.ts:84-147 | tables that index a relation are views of one relation if and only if it has no malformed pair |
| Coordination.SubscribeIndexes | packages/websocket/src/socket-coordinator.ts:84-115 | a subscription with any ids adds the pair to what coordinator and connections index, and to the provider only when well-formed |
| Coordination.RemovalIndexes | packages/websocket/src/socket-coordinator.ts:61-76 | a removal leaves live exactly the pairs of other sockets and the topics after the first malformed one |
| Coordination.ReachableTablesAreOneRelation | packages/websocket/src/socket-coordinator.ts:42-147 | in every run, whatever the ids, coordinator and connections index the live subscriptions and the provider the well-formed ones, so all four tables are views of one relation if and only if no malformed pair is live |
| Coordination.RemovalLeavesNoTrace | packages/websocket/src/socket-coordinator.ts:61-76 | a removal throws if and only if the connection has a malformed topic; then the connection stays with fewer topics, otherwise the socket occurs in no table of coordinator or provider |
| Coordination.MalformedTopicSplitsTables | packages/websocket/src/socket-coordinator.ts:84-115 | a concrete subscription with an empty topic is recorded by the coordinator alone, makes the removal throw, and is healed by unsubscribing |
| Coordination.SocketCoordinator.AddConnection | packages/websocket/src/socket-coordinator.ts:42-54 | adding a tracked connection changes nothing, adding a new one tracks it without topics |
| Coordination.SocketCoordinator.SubscribeToTopic | packages/websocket/src/socket-coordinator.ts:84-115 | state after the call, and that it throws exactly when a new subscription of a connected socket has malformed ids |
| Coordination.SocketCoordinator.UnsubscribeFromTopic | packages/websocket/src/socket-coordinator.ts:123-147 | state after the call, and that it throws exactly for a connected socket and malformed ids |
| Coordination.SocketCoordinator.RemoveConnection | packages/websocket/src/socket-coordinator.ts:61-76 | the state after the loop over the copied topics, from any tables, and that it throws if and only if one of the topics is malformed |
| RedisProvider.ChannelRoundTrip | packages/websocket-redis/src/redis-websocket-provider.ts:687-694 | the topic read back from a channel name is the topic it was made from |
| RedisProvider.LeaveMore | packages/websocket-redis/src/redis-websocket-provider.ts:634-649 | leaving the topics of a socket one by one, in any order, amounts to leaving them all at once |
| RedisProvider.ReactFrame | packages/websocket-redis/src/redis-websocket-provider.ts:532-581 | a reply or timer of one channel changes nothing recorded for any other channel |
| RedisProvider.RedisWsProvider.Track | packages/websocket-redis/src/redis-websocket-provider.ts:482-500 | the pair is entered in the tables, and whether the topic had no subscriber before |
| RedisProvider.RedisWsProvider.SubscribeSocket | packages/websocket-redis/src/redis-websocket-provider.ts:478-521 | state and tables after subscribe, with its marks and commands, and when it throws |
| RedisProvider.RedisWsProvider.UnsubscribeSocket | packages/websocket-redis/src/redis-websocket-provider.ts:590-621 | state and tables after unsubscribe, and when it throws |
| RedisProvider.RedisWsProvider.Close | packages/websocket-redis/src/redis-websocket-provider.ts:629-653 | the loop over the topics of a socket has the effect of leaving all of them at once |
| RedisProvider.RedisWsProvider.Settle | packages/websocket-redis/src/redis-websocket-provider.ts:526-581 | the reply callbacks and retry timers change the state as the protocol steps do |
| RedisProtocol.StepRefines | packages/websocket-redis/src/redis-websocket-provider.ts:478-720 | the provider and its broker are the product of one small state machine per channel: every event steps every machine by what the event means for it |
| RedisProtocol.ChannelStepKeepsGood | packages/websocket-redis/src/redis-websocket-provider.ts:526-720 | the invariant of a channel is kept by every event of that channel |
| RedisProtocol.StepKeepsInv | packages/websocket-redis/src/redis-websocket-provider.ts:478-720 | the invariant of provider and broker is kept by every call, reply, failure and timer |
| RedisProtocol.ReachableSafety | packages/websocket-redis/src/redis-websocket-provider.ts:478-720 | in every reachable state: the three channel sets are disjoint, marks for resubscribing lie among pending unsubscriptions, at most one command or timer is outstanding per channel and exactly for pending ones, subscribed channels have local subscribers and are held by the broker, and every wanted topic is subscribed, pending, marked, or gave up |
| RedisProtocol.TablesIgnoreReplies | packages/websocket-redis/src/redis-websocket-provider.ts:478-720 | whatever replies and timers do in between, the tables are the canonical index of the live subscriptions |
| RedisProtocol.SettleUsesWork | packages/websocket-redis/src/redis-websocket-provider.ts:526-581 | every reply or timer strictly decreases a measure of the work left, and leaves the tables alone |
| RedisProtocol.SettlingRunsAreBounded | packages/websocket-redis/src/redis-websocket-provider.ts:526-581 | without client calls every run of replies and timers is bounded by the work at its start, and stops only at quiescence |
| RedisProtocol.FaultlessRunsDoNotDrift | packages/websocket-redis/src/redis-websocket-provider.ts:526-720 | in a run where no UNSUBSCRIBE fails and no SUBSCRIBE that was done is reported as failed, no command leaves the broker behind |
| RedisProtocol.PersistentRunsDoNotGiveUp | packages/websocket-redis/src/redis-websocket-provider.ts:526-581 | in a run where no third attempt of a SUBSCRIBE fails, no channel gives up |
| RedisProtocol.ThirdAttemptIsLast | packages/websocket-redis/src/redis-websocket-provider.ts:544-581 | in every state that the invariant allows, a failed first or second attempt of a SUBSCRIBE is followed by the next one after a timer, and a failed third one ends the subscribe |
| RedisProtocol.QuiescenceIsExact | packages/websocket-redis/src/redis-websocket-provider.ts:526-720 | at quiescence nothing is pending, the subscribed channels are exactly those of wanted topics that did not give up, all of them when no last attempt failed, and the broker delivers exactly those and the channels a faulty command left behind, hence exactly those in a run without faulty commands |
| Graphs.SortableIsAcyclic | packages/core/src/dependency-validator.ts:141-192 | a graph with a topological order has no closed walk |
| Graphs.EnterNode | packages/core/src/dependency-validator.ts:163-165 | entering an unvisited node keeps the search's invariant: its stack is a walk, and what it left is in dependency order |
| Graphs.LeaveNode | packages/core/src/dependency-validator.ts:167-181 | leaving a node appends it to the dependency order of the finished nodes |
| Graphs.CloseCycle | packages/core/src/dependency-validator.ts:150-157 | the part of the path from a node on the stack, closed by that node, is a closed walk |
| Graphs.SearchDecides | packages/core/src/dependency-validator.ts:141-192 | a finished search found no cycle if and only if the graph has a topological order, and if and only if it has no closed walk |
| DependencyValidation.CycleDetector.DetectCycleFrom | packages/core/src/dependency-validator.ts:149-182 | the recursive search terminates, restores path and stack, visits the service and everything below it, and reports only closed walks |
| DependencyValidation.CycleDetector.DetectCycles | packages/core/src/dependency-validator.ts:141-192 | every reported path is a closed walk, and none is reported if and only if the graph can be sorted |
| DependencyValidation.CheckService | packages/core/src/dependency-validator.ts:24-112 | reports exactly the unregistered dependencies of a service, and a declaration shorter than its constructor's parameters |
| DependencyValidation.CheckServices | packages/core/src/dependency-validator.ts:24-112 | reports exactly those problems of the constructors that have no instance |
| DependencyValidation.CheckPackages | packages/core/src/dependency-validator.ts:24-112 | reports exactly the declared packages that are not installed |
| DependencyValidation.Validate | packages/core/src/dependency-validator.ts:24-112 | reports exactly the missing dependencies, parameters and packages, and only real cycles, at least one if and only if the graph cannot be sorted; passes if and only if none of these demands fails |
| DependencyContainer.Container.Register | packages/core/src/container.ts:74-83 | a declaration keeps construction order and wiring if and only if it is redeclarable, and the closure under dependencies if and only if the service has no instance or all new dependencies have one |
| DependencyContainer.Container.RegisterInstance | packages/core/src/container.ts:370-373 | a given value keeps construction order and wiring if and only if it is the instance that services depending on it hold, and always keeps the closure under dependencies |
| DependencyContainer.RedeclaringIsExact | packages/core/src/container.ts:74-83 | redeclaring a built service is harmless if and only if the dependencies now listed were there before it was built and are the ones it holds |
| DependencyContainer.ReplacingIsExact | packages/core/src/container.ts:370-373 | giving a value is harmless if and only if no built service holds another instance for the token |
| DependencyContainer.RedeclaredService | packages/core/src/container.ts:74-83 | a concrete redeclaration after which a built service lacks a dependency |
| DependencyContainer.ReplacedInstance | packages/core/src/container.ts:370-373 | concrete calls after which a built service holds another instance than its dependency's |
| DependencyContainer.Container.Validate | packages/core/src/container.ts:360-363 | reports exactly what is missing and only real cycles, passes if and only if the registry meets every demand, and then, with synchronous constructors that do not throw, gives the order that resolution needs |
| DependencyContainer.Container.ResolveAll | packages/core/src/container.ts:177-199 | on any registry, dependencies are resolved in order to their instances, all of them when validation passed, and the set of services being resolved is restored |
| DependencyContainer.Container.Construct | packages/core/src/container.ts:177-199 | a constructor call adds the one instance, holding its arguments, or changes nothing when it throws or returns a promise, and no service is constructed twice |
| DependencyContainer.Container.ResolveInternal | packages/core/src/container.ts:177-251 | resolution terminates on any registry, restores the set being resolved on success and failure, never replaces an instance, constructs no service twice, builds each new one from the very instances of its dependencies, keeps the closure under dependencies, and succeeds on a validated graph; a token without an instance is refused as unregistered when it is no constructor, as circular when it is being resolved, and as an unknown service when it was never registered |
| DependencyContainer.Container.Resolve | packages/core/src/container.ts:127-144 | at the top level every registered token of a validated graph resolves, and the graph stays validated; on any registry the promises of the recursive resolution hold |
| DependencyContainer.BuildNext | packages/core/src/container.ts:177-199 | building a service after its dependencies keeps: each service built once, dependencies first, and holding the very instances of its dependencies |
| DependencyContainer.DependenciesAreReady | packages/core/src/container.ts:231-251 | on a validated graph no dependency of a service is being resolved already |
| DependencyContainer.CyclesAreNeverBuilt | packages/core/src/container.ts:231-251 | no sequence of resolutions builds a service on a cycle of services that were not given as instances |
| CacheRegistration.CacheRegistry.Register | packages/cache/src/cache-registry.ts:69-99 | both graphs keep holding exactly the declared dependencies, one the inverse of the other |
| CacheRegistration.CacheRegistry.GetDependents | packages/cache/src/cache-registry.ts:117-119 | returns exactly the entities with a configuration that declares the dependency |
| CacheRegistration.CycleSearch.HasCycle | packages/cache/src/cache-registry.ts:138-171 | the search reports a walk into itself, or leaves everything below the entity in dependency order |
| CacheRegistration.CacheRegistry.ValidateNoCycles | packages/cache/src/cache-registry.ts:138-171 | throws if and only if the dependency graph has a cycle, that is, no topological order, and then reports a walk into one |
| CacheRegistration.IntoItselfIsCyclic | packages/cache/src/cache-registry.ts:138-171 | a graph with a walk that runs into itself has a cycle and no topological order |
| EntityRegistration.EntityRegistryBuilder.Scope | packages/cache/src/entity-registry.ts:63-91 | throws exactly for a scope defined before, and otherwise adds a scope that inherits the parameters of the last one; the registry stays well-formed |
| EntityRegistration.EntityRegistryBuilder.Entity | packages/cache/src/entity-registry.ts:96-130 | throws exactly for a known entity or unknown scope, and otherwise adds an entity whose parameters are those of its scope followed by its own unique keys; the registry stays well-formed |
| EntityRegistration.ScopesAccumulate | packages/cache/src/entity-registry.ts:63-271 | in the registry of every sequence of builder calls the scopes stand in the order of their first definitions, and each has its own parameters after those of all scopes before it |
| EntityRegistration.EntitiesAreDefined | packages/cache/src/entity-registry.ts:96-130 | in the registry of every sequence of builder calls the entities are exactly those of the first calls with a scope defined before; each has the scope and unique keys of that call, and the parameters accumulated up to its scope followed by the unique keys |
| EntityRegistration.ExtendChain | packages/cache/src/entity-registry.ts:260-271 | adding a scope that extends the last one keeps the chain of prefixes |
| EntityRegistration.ShallowerScopeIsPrefix | packages/cache/src/entity-registry.ts:63-130 | a scope no deeper than another has a prefix of its parameters |
| CacheBuilding.CacheBuilder.DependsOn | packages/cache/src/cache-builder.ts:310-391 | accepts exactly dependencies on other known entities of no deeper scope whose explicit parameters both entities have, and otherwise lists exactly the parameters both share |
| CacheBuilding.CacheBuilder.ListExplicitly | packages/cache/src/cache-builder.ts:344-373 | explicit parameters are accepted if and only if both entities have all of them |
| CacheBuilding.CacheBuilder.ListShared | packages/cache/src/cache-builder.ts:374-389 | narrowed parameters are exactly the shared ones and include the dependency's scope parameters |
| CacheBuilding.CommonKeysCoverScope | packages/cache/src/cache-builder.ts:331-342 | the cross-scope guard makes narrowed lists contain the scope parameters of the source |
| CacheBuilding.CacheBuilder.BuildDependsOn | packages/cache/src/cache-builder.ts:462-505 | the loop yields the entities named after the scopes down to the entity's own, overlaid with the declared dependencies |
| CacheBuilding.HierarchyIsExact | packages/cache/src/cache-builder.ts:462-497 | the hierarchy dependencies are exactly the other entities named after a scope down to the entity's own and defined in it, each with its scope's parameters |
| CacheBuilding.HierarchyFits | packages/cache/src/cache-builder.ts:462-505 | every hierarchy dependency lists parameters both entities have, among them all of its scope's |
| CacheBuilding.CacheBuilder.Build | packages/cache/src/cache-builder.ts:414-455 | needs a ttl, and yields a configuration that fits the registry: its dependencies are the hierarchy overlaid with the declared ones, their lists are within the parameters of both entities, and cover the scopes unless given explicitly |
| KeyGeneration.CollectParams | packages/cache/src/key-generator.ts:91-118 | the loop extracts exactly the defined values under the listed keys, and reports missing keys exactly when one has no value |
| KeyGeneration.MakeCacheKey | packages/cache/src/key-generator.ts:54-82 | a cache key is generated exactly when the entity is named and all parameters are given, from those parameters alone |
| KeyGeneration.MakeConfigMetaKey | packages/cache/src/key-generator.ts:194-222 | a configuration's meta key is generated exactly when all meta parameters are given, from those alone |
| KeyGeneration.CacheKeyThrowsExactly | packages/cache/src/key-generator.ts:54-82 | a cache key is generated if and only if the entity is named and every parameter has a value |
| KeyGeneration.ConfigMetaKeyThrowsExactly | packages/cache/src/key-generator.ts:194-222 | a configuration's meta key is generated if and only if the entity is named and every meta parameter has a value |
| KeyGeneration.CacheKeysAreEqualExactly | packages/cache/src/key-generator.ts:54-82 | with an injective hash, two cache keys are equal if and only if the entities, the sets of parameters and their values are |
| KeyGeneration.FieldsTell | packages/cache/src/key-generator.ts:164-176 | without a parameter named "entity", the material of a meta key tells the entity and exactly the defined parameters |
| RedisStore.MetaOutlivesData | packages/cache-redis/src/redis-cache.ts:170-226 | the expiry put on a meta set is later than that of the entry it lists, however fractions of seconds are rounded |
| RedisStore.WriteIsStored | packages/cache-redis/src/redis-cache.ts:170-226 | after a tracked write the key holds the value, live until its lifetime has elapsed and for good when that is not positive; no other entry changes |
| RedisStore.MetaSetGainsKey | packages/cache-redis/src/redis-cache.ts:170-226 | each of the meta sets of a write lists the key besides the members of the set that has not expired; no other set changes |
| RedisStore.MetaSetLasts | packages/cache-redis/src/redis-cache.ts:190-226 | such a set lasts at least a minute beyond the lifetime and no shorter than before, a second more at most unless it already did, and for good when the write does not expire |
| RedisStore.DeletedExactly | packages/cache-redis/src/redis-cache.ts:252-308 | a deletion by meta keys removes exactly those sets and the entries listed by one of them that has not expired |
| RedisStore.CountedAreRemoved | packages/cache-redis/src/redis-cache.ts:252-308 | the entries counted are exactly the live ones that the deletion removes |
| RedisStore.WriteKeepsTrackExactly | packages/cache-redis/src/redis-cache.ts:170-226 | after a write every live entry is still listed by meta sets that outlive it, if and only if no live entry under a touched set without expiry outlasts the expiry the write sets |
| RedisStore.MixedWritesLoseTrack | packages/cache-redis/src/redis-cache.ts:190-226 | a concrete write without expiry followed by one with expiry leaves an entry that invalidation no longer finds |
| RedisStore.OperationKeepsTrack | packages/cache-redis/src/redis-cache.ts:125-308 | every deletion, invalidation and passing of time keeps each live entry listed by meta sets that outlive it, and a write does if and only if it is harmless |
| RedisStore.RunsKeepTrack | packages/cache-redis/src/redis-cache.ts:125-308 | a run keeps every live entry so listed throughout if and only if all its writes are harmless when made |
| RedisStore.UniformWritesAreHarmless | packages/cache-redis/src/redis-cache.ts:190-226 | all writes are harmless when all of them expire, and when none of them does |
| RedisStore.RedisCacheProvider.WriteTracked | packages/cache-redis/src/redis-cache.ts:170-226 | the pipeline of a tracked write has the effect of one write to all meta sets, also with repeated keys |
| RedisStore.RedisCacheProvider.DelByMetaMany | packages/cache-redis/src/redis-cache.ts:252-308 | the script deletes exactly the keys listed by the given meta sets and those sets, and counts the live entries deleted |
| CacheServices.CacheService.TrackConfig | packages/cache/src/cache.ts:496-513 | a configuration is filed under its entity and under each of its dependencies |
| CacheServices.TrackKeepsFiled | packages/cache/src/cache.ts:496-513 | seen configurations stay seen and filed under all their dependencies |
| CacheServices.TrackIsExact | packages/cache/src/cache.ts:496-513 | tracking files exactly the new configuration besides those seen before, under its entity |
| CacheServices.CacheService.GenerateMetaKeys | packages/cache/src/cache.ts:650-691 | an entry's meta keys are its own, one for each non-empty dependency list and one for each tag; throws exactly for an unnamed entity, missing meta parameters, an unnamed dependency or an empty tag |
| CacheServices.EntryKeysThrowExactly | packages/cache/src/cache.ts:650-691 | the meta keys of an entry exist if and only if its entity is named, its meta parameters have values, no listed dependency is unnamed and no tag is empty |
| CacheServices.WriteOutcomeExactly | packages/cache/src/cache.ts:602-642 | a write stores if and only if it has a cache key and meta keys and its value is present or nulls are cached; it is skipped if and only if it has a cache key and a missing value is not cached |
| CacheServices.WriteStoresExactly | packages/cache/src/cache.ts:602-642 | a stored write leaves its own value under the cache key, live for ttl plus grace period or the default one, for good when these do not add up to a lifetime, and no other entry changed; any other write leaves the store alone |
| CacheServices.CacheService.SetEntry | packages/cache/src/cache.ts:602-642 | what is stored, the value itself included, for how long, under which meta keys, and when nothing is |
| CacheServices.CacheService.Set | packages/cache/src/cache.ts:333-341 | likewise for a direct write: a stored one leaves its value under the cache key; one whose cache key throws does not even track the configuration |
| CacheServices.CacheService.AddTrackedMetaKeys | packages/cache/src/cache.ts:523-560 | adds exactly the narrow keys of the entity's own configurations and of those that depend on it |
| CacheServices.CacheService.CollectInvalidationKeys | packages/cache/src/cache.ts:393-407 | the keys an invalidation deletes by; generating them throws exactly for an unnamed entity or an empty tag, whatever has been seen |
| CacheServices.InvalidationThrowsExactly | packages/cache/src/cache.ts:393-407 | on any tracking, generating the keys of an invalidation throws if and only if the entity is unnamed or one of its tags is empty |
| CacheServices.CacheService.Invalidate | packages/cache/src/cache.ts:385-410 | throws exactly for an unnamed entity or an empty tag, then removing nothing; otherwise the store after the invalidation and the number of live entries removed |
| CacheServices.CacheService.InvalidateMany | packages/cache/src/cache.ts:437-464 | several invalidations delete by all their keys at once and count the live entries removed, or nothing when one of them names no entity or has an empty tag |
| CacheServices.AllKeysInclude | packages/cache/src/cache.ts:437-464 | a bulk invalidation deletes by all the keys of each of its members |
| CacheServices.AllKeysThrow | packages/cache/src/cache.ts:437-464 | a bulk invalidation throws when any of its members would |
| Cascade.StepKeepsInv | packages/cache/src/cache.ts:333-410 | in a system of several instances every write, invalidation, deletion and tracking keeps each entry filed under the meta keys of its last write |
| Cascade.StepKeepsFiling | packages/cache/src/cache.ts:333-410 | whatever the lifetimes, every event keeps each entry traceable to its last write and each meta set traceable to the writes that filled it |
| Cascade.KeysMeet | packages/cache/src/cache.ts:523-691 | the keys an invalidation looks up include one the entry was written under, whenever the parameters agree on the entry's meta parameters or its list for the invalidated entity |
| Cascade.ExpiringRunsAreLawful | packages/cache/src/cache.ts:602-642 | runs of builder-made configurations in which every write gives its entry a lifetime are lawful |
| Cascade.InvalidationIsComplete | packages/cache/src/cache.ts:385-410 | after any lawful run, on any instance that has seen the configuration, an invalidation of a named entity without empty tags removes every live entry its parameters reach, whichever instance wrote it |
| Cascade.FullParametersReach | packages/cache/src/cache-builder.ts:375-388 | passing all parameters of the invalidated entity reaches every entry of it and of configurations that depend on it, also by a narrowed list: only the values of parameters both have must be the entry's |
| Cascade.LookupsTell | packages/cache/src/cache.ts:385-560 | without tags, every key looked up tells the entity and only values of the parameters passed |
| Cascade.TellingKeyAgrees | packages/cache/src/key-generator.ts:152-222 | an entry's key that tells an entity and values of given parameters has those values under all its listed keys |
| Cascade.SameKeySameParams | packages/cache/src/key-generator.ts:54-82 | with an injective hash two writes to one cache key have the same parameter values |
| Cascade.InvalidationIsPrecise | packages/cache/src/cache.ts:385-410 | after any run of builder-made configurations, with an injective hash, no tags and no explicit dependency lists, every entry an invalidation removes agrees with it on all scope parameters of the invalidated entity |
| Cascade.EntryIsFoundExactly | packages/cache/src/cache.ts:385-410 | whatever configurations an instance has seen, its invalidation looks up a key of an entry if and only if they share a tag, or the values passed, all of them or those under a list looked up, are the entry's values under one of its lists for the entity |
| Cascade.NarrowKeyIsLookedUpExactly | packages/cache/src/cache.ts:523-560 | a key of an entry is looked up if and only if its entity is the invalidated one and its values are looked up |
| Cascade.UnseenConfigurationIsFoundExactly | packages/cache/src/cache.ts:231-237 | an instance that has seen no configuration at all finds an untagged entry of the entity if and only if it is given exactly the entry's meta parameters |
| Cascade.UnseenInstanceMisses | packages/cache/src/cache.ts:231-237 | a live entry survives the invalidation of an instance that has seen nothing unless given exactly the meta parameters |
| Cascade.UnseenEntrySurvives | packages/cache/src/cache.ts:231-237 | a concrete entry survives an invalidation with all of its parameters by such an instance |
| WorkflowPool.StartKeepsInv | packages/workflows/src/in-process-workflow-provider.ts:349-363 | starting an item keeps the limit and the split into running and settled items |
| WorkflowPool.CompleteKeepsInv | packages/workflows/src/in-process-workflow-provider.ts:349-363 | the completion of any running item keeps them too |
| WorkflowPool.EveryOrderGivesTheSameResults | packages/workflows/src/in-process-workflow-provider.ts:341-370 | under every completion order at most max(1, limit) items run, the pool never gets stuck, each item runs once, and the results are each item's own at its own index |
| WorkflowPool.ExecuteWithConcurrencyLimit | packages/workflows/src/in-process-workflow-provider.ts:341-370 | the loop returns each item's result at its index and never exceeds the limit, whichever items complete while it waits |
| Workflow.RollbacksAreTheReverse | packages/workflows/src/in-process-workflow-provider.ts:377-428 | the rollbacks called are the completed steps in reverse, each once |
| Workflow.ProviderRun.RunRollbacks | packages/workflows/src/in-process-workflow-provider.ts:377-428 | all rollbacks are called, in reverse and seeing the current results, even when some fail, and the failures are returned in that order |
| Workflow.RollbackErrorsReverse | packages/workflows/src/in-process-workflow-provider.ts:377-428 | the errors reported for two lists of completed steps are those of the later list and then those of the earlier one |
| Workflow.RollbackError | packages/workflows/src/in-process-workflow-provider.ts:377-428 | of a single step they are the error its rollback failed with, if it did |
| Workflow.ProviderRun.SequentialGroup | packages/workflows/src/in-process-workflow-provider.ts:698-758 | each step sees the results so far; a failing step rolls back, a step without handler ends the run without rollbacks |
| Workflow.ProviderRun.ParallelGroup | packages/workflows/src/in-process-workflow-provider.ts:763-878 | all steps see the results from before the group; results, compensation list and reported error follow the order of the definition |
| Workflow.ProviderRun.Execute | packages/workflows/src/in-process-workflow-provider.ts:546-664 | groups run in order until one fails, then the final handler runs only if none did |
| Workflow.GroupsAreExact | packages/workflows/src/in-process-workflow-provider.ts:586-878 | saga exactness: a run without failure has called exactly the steps of its groups, all of which succeeded; a failed one has called the handled ones among its first steps and names a step of them that failed or has no handler; results and compensation list are what the successful calls amount to, and after its steps it has called exactly the rollbacks of all successful steps that have one, in reverse, reporting exactly their failures; only a sequential step without handler ends it without rollbacks |
| Workflow.FailedStepIsRolledBack | packages/workflows/src/in-process-workflow-provider.ts:586-878 | when a step that has a handler fails, the run fails and has then called exactly the rollbacks of the steps that succeeded and have one, in reverse, even when rollbacks fail |
| Workflow.StepsSeeEarlierResults | packages/workflows/src/in-process-workflow-provider.ts:571-594 | a step of a sequential group sees the results of all successful steps called before it, the steps of a parallel group those of all successful steps before the group |
| Workflow.RunsFinishExactly | packages/workflows/src/in-process-workflow-provider.ts:625-664 | the final handler is called if and only if no step failed, once, last and with all results; the run succeeds if and only if it then does, and its failure rolls nothing back |
| Workflow.GatherIsFaithful | packages/workflows/src/in-process-workflow-provider.ts:831-860 | gathering a parallel group amounts to running its steps one after another on the results from before the group |
| Workflow.FirstFailureIsFailed | packages/workflows/src/in-process-workflow-provider.ts:835-850 | the error reported is that of the first failed step in the order of the definition, and there is one if and only if a step failed |
| Workflow.CompletedOnce | packages/workflows/src/in-process-workflow-provider.ts:831-860 | no step is in the compensation list more often than it is defined |
| Workflow.RefusedOutputsFail | packages/core/src/workflow-coordinator.ts:461-675 | on any user code the coordinator makes the calls, and comes to the results and the cause of failure, that the provider does when exactly the outputs and results refused by their schema fail instead |
| Workflow.ExecutorsAgree | packages/core/src/workflow-coordinator.ts:461-649 | with outputs their schemas accept, coordinator and provider make the same calls seeing the same results, keep the same results map and end with the same success or cause of failure |
| Workflow.RollbacksAgree | packages/core/src/workflow-coordinator.ts:471-513 | rolling back all completed steps and skipping those without rollback is rolling back the steps kept for it |
| Workflow.CoordinatorRun.ExecuteRollbacks | packages/core/src/workflow-coordinator.ts:471-513 | the loop calls the rollbacks in reverse, skipping steps without one |
| Workflow.CoordinatorRun.SequentialGroup | packages/core/src/workflow-coordinator.ts:535-580 | a step that throws or returns an output its schema refuses rolls back; a step without handler does not |
| Workflow.CoordinatorRun.ParallelGroup | packages/core/src/workflow-coordinator.ts:580-646 | settled steps are entered in the order of the definition before the first error rolls back |
| Workflow.CoordinatorRun.Execute | packages/core/src/workflow-coordinator.ts:515-675 | groups run until one throws, then the final handler's result is checked |
| WorkflowFlows.StepKeepsInv | packages/workflows/src/in-process-workflow-provider.ts:434-664 | every event of a run, timeout or cleanup keeps status, promise, timer and flow table consistent; cleanup is due for exactly the ended runs that still hold their flow id |
| WorkflowFlows.RunsAreSound | packages/workflows/src/in-process-workflow-provider.ts:434-664 | over every run: completed and failed are absorbing, a settled promise never changes, flows keep their id |
| WorkflowFlows.ReachableFlows | packages/workflows/src/in-process-workflow-provider.ts:434-664 | a run is resolved if and only if completed, rejected without having failed if and only if its error handler threw before a timeout, cleanup is due for exactly the ended runs that hold their id, and unfinished runs hold theirs, so no two share one |
| WorkflowFlows.RunsAreDecided | packages/workflows/src/in-process-workflow-provider.ts:487-664 | the result of every run follows from its events alone: a run that timed out has failed and is rejected with the timeout; any other is resolved with a value, and completed, if and only if its handler returned that value, and rejected with an error if and only if a step failed with it and the error handler, if any, returned, or the error handler or the handler threw it; it has then failed, unless the error handler threw |
| WorkflowFlows.StartsExactly | packages/workflows/src/in-process-workflow-provider.ts:445-541 | a known flow id starts nothing, a new one starts a running flow with a timer exactly when a timeout is set, and cleanup frees the id |
| WorkflowFlows.MovesExactly | packages/workflows/src/in-process-workflow-provider.ts:487-664 | an event changes its own run alone, moves it to its next phase, stops the timer exactly when the promise settles, and schedules the cleanup of a run that ends |
| WorkflowFlows.EscapedFlowIsStuck | packages/workflows/src/in-process-workflow-provider.ts:610-621 | a run whose error handler threw keeps its status and its flow id for good |
| WorkflowFlows.ThrowingErrorHandlerEscapes | packages/workflows/src/in-process-workflow-provider.ts:596-621 | a concrete run whose error handler throws is rejected while it is still running |
| WorkflowFlows.FlowTable.ExecuteWorkflow | packages/workflows/src/in-process-workflow-provider.ts:453-541 | a known flow id returns its run and starts none; a new one starts a run, with a timer only for a positive timeout |
| WorkflowFlows.FlowTable.OnTimeout | packages/workflows/src/in-process-workflow-provider.ts:487-508 | a timeout fails a run that has not finished, and only such a run |
| WorkflowFlows.FlowTable.OnHandlerResult | packages/workflows/src/in-process-workflow-provider.ts:646-664 | a result completes the run unless a timeout failed it meanwhile, and schedules the cleanup either way |
| Singleflights.OneExecutionPerKey | packages/cache/src/singleflight.ts:74-111 | in every reachable state each key has at most one running execution, the flights are exactly the running ones, callers join an execution of their key that had not settled before the call, and errors are thrown again only within their lifetime |
| Singleflights.CallersShare | packages/cache/src/singleflight.ts:74-111 | a call while an execution runs for its key, with no error kept, joins that execution |
| Singleflights.CallsAreDecided | packages/cache/src/singleflight.ts:74-111 | in every reachable state a call is thrown an error if and only if the last settled execution of its key failed with it less than the lifetime ago; any other call joins the execution running for its key, and starts one if and only if none is |
| Singleflights.SettlesExactly | packages/cache/src/singleflight.ts:84-103 | an execution settles with the outcome of its function at that time, and no other execution changes |
| Singleflights.NothingRethrownAtZero | packages/cache/src/singleflight.ts:74-111 | with the lifetime of zero that the cache service uses, no error is ever thrown again |
| Singleflights.Singleflight.Perform | packages/cache/src/singleflight.ts:74-111 | state after a call and the answer recorded for it |
| Singleflights.Singleflight.OnSettled | packages/cache/src/singleflight.ts:88-103 | a success clears the kept error, a failure keeps it for its lifetime, and both end the flight |
| CacheFetch.ReachableFetches | packages/cache/src/cache.ts:224-292 | in every reachable state at most one flight per key is open; each caller's outcome is the value of an entry read before it expired, the factory's value in time, the value of an entry read after it expired and within its grace period, nothing for a skip, or an error of the read, the factory, its timeout or the write; and only a factory that returned in time has written |
| CacheFetch.NewFlightReads | packages/cache/src/cache.ts:240-247 | a call for a key without an open flight opens one, which reads the cache first |
| CacheFetch.ReadDecidesExactly | packages/cache/src/cache.ts:246-262 | an entry that has not expired is returned and starts no factory; a missing or expired one always starts the factory, with its deadline |
| CacheFetch.FailedReadThrows | packages/cache/src/cache.ts:240-249 | a read that fails is thrown and starts no factory |
| CacheFetch.FactoryDecidesExactly | packages/cache/src/cache.ts:254-292 | a factory that ends in time has its value written, returns nothing for a skip, is thrown when it threw, and when it reported a failure falls back on the value read in its grace period, throwing if and only if there is none |
| CacheFetch.TimeoutDecidesExactly | packages/cache/src/cache.ts:264-292 | a timeout falls back likewise, and leaves the store alone |
| CacheFetch.WriteDecidesExactly | packages/cache/src/cache.ts:602-642 | a write leaves the factory's value under the key with its expiry and grace period and changes no other key; a skipped write returns the value, a failing one is thrown, and neither changes the store |
| CacheFetch.OutcomesLast | packages/cache/src/cache.ts:224-292 | a settled flight keeps its outcome, so all callers that share it get the same one |
| CacheFetch.OpenFlightIsShared | packages/cache/src/cache.ts:240-247 | a call while a flight is open for its key joins it and starts no factory |
| CacheFetch.LateFactoryIsIgnored | packages/cache/src/cache.ts:113-126 | a factory that ends after its timeout changes neither the store nor any outcome |
| LogBuffers.SplitUndoesJoin | packages/logging/src/log-buffer.ts:165-167 | splitting at newlines and dropping empty parts undoes joining lines with newlines |
| LogBuffers.FlushTextSplits | packages/logging/src/log-buffer.ts:140-167 | a flush text splits into the warning, if lines were dropped, and then the lines |
| LogBuffers.LogBuffer.BeginFlush | packages/logging/src/log-buffer.ts:125-154 | the swap empties the buffer, resets the drop count, and hands out the buffered lines behind the warning |
| LogBuffers.LogBuffer.Write | packages/logging/src/log-buffer.ts:86-113 | a line that does not fit is counted as dropped and changes nothing else; one that fits is accepted after all earlier ones; below the threshold, or inside a flush, nothing is delivered, and otherwise everything accepted is |
| LogBuffers.LogBuffer.Flush | packages/logging/src/log-buffer.ts:125-201 | delivers exactly one warning about the dropped lines counted so far, if any, and the buffered lines, in order, also while transports log from inside; between flushes what the transports have received is, flush by flush, the warnings that tell of all reported drops and all delivered lines; a nested flush changes nothing |
| LogBuffers.LogBuffer.DeliverAll | packages/logging/src/log-buffer.ts:165-200 | each line is delivered once and in order while re-entrant writes only add to the buffer |
| EventIdempotencies.ProcessingKeepsBound | packages/events/src/event-idempotency.ts:91-115 | the table has no duplicate and never exceeds its size, except by one entry while it holds the empty id |
| EventIdempotencies.TableFitsExactly | packages/events/src/event-idempotency.ts:182-193 | a call that runs its handler leaves the table within its size if and only if the empty id is not among the entries to evict |
| EventIdempotencies.EmptyIdIsNotEvicted | packages/events/src/event-idempotency.ts:182-193 | a concrete table of size one with two entries |
| EventIdempotencies.HandlerRunsAtMostOnce | packages/events/src/event-idempotency.ts:91-115 | in any run a handler does not run again for an id while its lifetime lasts and fewer than maxSize other handlers have run since |
| EventIdempotencies.ExecutesExactly | packages/events/src/event-idempotency.ts:91-115 | the handler runs if and only if every entry for the id is older than its lifetime |
| EventIdempotencies.ProcessedExactly | packages/events/src/event-idempotency.ts:91-115 | a call keeps the unexpired entries; if it runs its handler it adds one for its id as the newest, and then evicts |
| EventIdempotencies.EvictsOldestExactly | packages/events/src/event-idempotency.ts:182-193 | eviction keeps the newest entries up to the size, in order, and of the older ones exactly those with an empty id |
| EventIdempotencies.EventIdempotency.CleanExpired | packages/events/src/event-idempotency.ts:170-177 | exactly the expired entries are removed |
| EventIdempotencies.EventIdempotency.EvictOldest | packages/events/src/event-idempotency.ts:182-193 | the oldest entries beyond the size are removed, except an empty id |
| EventIdempotencies.EventIdempotency.ProcessOnce | packages/events/src/event-idempotency.ts:91-115 | runs the handler exactly when every entry for the id has expired, and the table afterwards |
| Durations.ParseDuration | packages/cache/src/duration.ts:45-99 | every accepted duration lies between zero and a year |
| Durations.NumbersAreKept | packages/cache/src/duration.ts:47-60 | a finite number of seconds is returned as it is if and only if it lies between zero and a year, and otherwise refused as negative or too long; others are refused |
| Durations.FormatIsExact | packages/cache/src/duration.ts:62-99 | a text is refused for its format if and only if it is neither "0" nor digits followed by s, m, h or d in either case; nothing else but the length of a year refuses one |
| Durations.SpellingIsIgnored | packages/cache/src/duration.ts:73-99 | leading zeros and the case of the unit make no difference |
| Durations.DurationExamples | packages/cache/src/duration.ts:1-13 | the documented examples |
| Durations.UnitRoundTrip | packages/cache/src/duration.ts:62-99 | a decimal number with a unit parses to that many units, or is refused beyond a year |
| Durations.DecimalRoundTrip | packages/cache/src/duration.ts:108-129 | decimal digits parse back to the number printed |
| Durations.LargestUnitIsChosen | packages/cache/src/duration.ts:108-129 | formatting uses the largest unit that divides the seconds evenly |
| Durations.ParsingUndoesFormatting | packages/cache/src/duration.ts:108-129 | parsing undoes formatting for exactly the numbers of seconds up to a year |

## Left out

- Redis: reconnecting and `resubscribeAll`, `start` and `stop` of a session, publishing and message handling; the model is one started session on one connection.
- Commands to the broker are handled in any order, of which the first-in-first-out order of one connection is one.
- WebSocket connections, workflow flow objects and cache configurations are values, so two configurations with equal fields count as one and sharing of a mutable object is not captured.
- Container: `resolveInternalAsync`, `clearInstances`, the resolution timeout, and constructors that call `resolve`.
- RedisStore: a pipeline command that fails, which the source only logs, and a script that fails, which it logs and reports as nothing deleted.
- Singleflight: `forget`, `forgetError` and `clear`, and functions that throw synchronously or call `do` for their own key.
- Cache: the in-memory provider and the paths without meta keys (`cascade: false` without Redis); entries read by `get`.
- Cascade.InvalidationIsComplete: lawful runs only, in which no write loses track of a live entry (`RunsKeepTrack` states exactly which writes do).
- EntityRegistryBuilder: `use`, which merges two registries.
- The convention that names an entity after its scope is a function parameter; so are user tag functions, by number.
- CacheFetch: `getOrSet` is a state machine on values; the ttl and grace period of each write are part of its event, and values are not null.
- Workflows: a step handler that throws synchronously, and a resolved value that carries `__stepError`, count as a failed step; handles given to callers, `stop`, and the choice between coordinator and provider; user code is a function of the results it sees.
- WorkflowFlows: `pending` and `running` are one status, because the source leaves the first before it yields.
- LogBuffer: resolving transports, several transports for one line, parse errors and the timer; the JSON text of a log object is any non-empty text without a newline.
- EventIdempotency: `markProcessed`, `isProcessed` and `clear`.
- Durations: numbers so large that they print with an exponent.
- Schemas are predicates; error message texts, logging, jitter of retry delays and real timers are not modelled.
- The WebSocket client, the BullMQ providers, the HTTP server, configuration, mapper, SQL templates, fluent type-level builders and benchmarks are not part of this model.
