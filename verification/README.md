# RabbitMQ transport core, modelled in Dafny

This project models the core of Wolverine's RabbitMQ transport: the transport
object that caches exchanges and queues by name, enumerates every endpoint and
binding, resolves a destination to a cached endpoint, declares the per-node
reply queue and builds its two broker connections lazily; and the sender, which
fixes its routing-key strategy at construction, refuses to publish while its
connection agent is Disconnected, and answers health checks.

Everything is immutable data and pure functions:

- `wrappers.dfy` (`Wrappers`): `Option` and `Result`.
- `cache.dfy` (`NameCache`): the name-keyed, create-on-miss cache used for
  exchanges and for queues. It is an association list in enumeration order.
  A getter on a missing name appends the factory's entry. The setter overwrites
  in place or appends.
- `topology.dfy` (`Topology`): queues, exchanges, topics, bindings, the
  `Endpoint` union, the two cache factories and the `queue` / `exchange` type
  segments.
- `transport.dfy` (`RabbitMqTransport`): the transport record, connection
  building, endpoint lookup and resolution, the reply queue, and the endpoint and
  binding enumerations with their lemmas.
- `lifecycle.dfy` (`TransportLifecycle`): any sequence of transport calls. Each
  connection slot is built at most once. Cached endpoints are never replaced
  except by the reply-queue declaration. Names stay unique.
- `agent.dfy` (`ConnectionAgent`): the connection agent the sender extends.
  It holds a state (Connected / Disconnected), a channel and a count of opened
  channels.
- `sender.dfy` (`RabbitMqSender`): construction, `SendAsync`, `PingAsync`,
  `SupportsNativeScheduledSend`, and lemmas over sequences of sends and pings.

The broker is replaced by logs. The transport records every connection it
builds; a connection's `serial` is its position in that log. The sender records
every publish. `TopicRouting.DetermineTopicName` and the envelope mapper are
arbitrary functions given to `NewSender`. A destination URI is taken as its host
(the object type) and its last path segment (the object name), already split.

The model follows the code's errors:
- An unknown destination type fails with `ArgumentOutOfRange("uri", …)`, whose
  message names the type.
- A send on a Disconnected agent fails with `InvalidOperation`, whose message
  names the destination.
- The reply queue is cached under its broker name `wolverine.response.<node id>`.
  `RabbitMqResponses` is only its `endpointName`.

The connection agent's own code (`RabbitMqConnectionAgent`) is not part of this
model, and the sender's code never sets the agent's state itself. What happens
inside the agent when it opens or tears down a channel is therefore an input of
the model, a `ChannelOutcome`. It says whether the new channel reports open,
the state the agent is left in after opening it, and the state after a teardown.
Beyond that input, the model assumes three things about the agent:
- a new agent starts Disconnected, with no channel and none opened (`ConnectionAgent.NewAgent`);
- opening a channel counts one channel and makes it the current one;
- tearing it down drops it.
Results about what an agent can do after a channel open are stated in terms of
that outcome. `Coherent` names the outcomes that never leave an agent Connected
without an open channel.

## Model

| member | source | states |
|---|---|---|
| NameCache.Get | src/Transports/Wolverine.RabbitMQ/Internal/RabbitMqTransport.cs:25-27 | A cache read returns the entry stored under the name afterwards. For a cached name it returns the cached entry and leaves the cache unchanged. For a new name it returns the factory's entry, appended at the end. Only that name is added and every other name's lookup is unchanged. Names stay unique. |
| NameCache.Set | src/Transports/Wolverine.RabbitMQ/Internal/RabbitMqTransport.cs:115 | A cache write stores the value under the name. An existing entry of that name is replaced in its position; otherwise the value is appended. No other name's entry changes. Names stay unique. |
| NameCache.GetIdempotent | src/Transports/Wolverine.RabbitMQ/Internal/RabbitMqTransport.cs:125-133 | Looking a name up twice returns the same entry. The second lookup leaves the cache as the first left it. |
| RabbitMqTransport.NewTransport | src/Transports/Wolverine.RabbitMQ/Internal/RabbitMqTransport.cs:22-28 | A new transport has automatic recovery on, both caches empty and no connection built. It satisfies the connection ledger and registry invariants. |
| RabbitMqTransport.BuildConnection | src/Transports/Wolverine.RabbitMQ/Internal/RabbitMqTransport.cs:118-123 | The connection dials the configured address list exactly when that list is non-empty, and the factory default otherwise. It is a new connection, appended to the build log. |
| RabbitMqTransport.ListeningConnection | src/Transports/Wolverine.RabbitMQ/Internal/RabbitMqTransport.cs:39 | Returns the listening slot's connection. When the slot is filled nothing changes. When it is empty exactly one connection is built and stored there, and the sending slot is unchanged. |
| RabbitMqTransport.SendingConnection | src/Transports/Wolverine.RabbitMQ/Internal/RabbitMqTransport.cs:40 | The same for the sending slot: the cached connection when one exists, otherwise exactly one new build stored in the slot. |
| RabbitMqTransport.ConnectAsync | src/Transports/Wolverine.RabbitMQ/Internal/RabbitMqTransport.cs:30-37 | Afterwards both slots are filled and already-filled slots are kept. Exactly one connection is built per slot that was empty, the listener's before the sender's. Nothing but the two slots and the build log changes. |
| RabbitMqTransport.ConnectIdempotent | src/Transports/Wolverine.RabbitMQ/Internal/RabbitMqTransport.cs:33-34 | Connecting twice equals connecting once. A transport with both connections is left unchanged. |
| RabbitMqTransport.EndpointForQueue | src/Transports/Wolverine.RabbitMQ/Internal/RabbitMqTransport.cs:125-128 | Returns the queue cached under the name, creating a default application queue on a miss. At most that name is added. Every other queue entry and everything outside the queue cache is unchanged. |
| RabbitMqTransport.EndpointForExchange | src/Transports/Wolverine.RabbitMQ/Internal/RabbitMqTransport.cs:130-133 | Returns the exchange cached under the name, creating an empty exchange on a miss. At most that name is added. Every other entry is unchanged. |
| RabbitMqTransport.FindEndpointByUri | src/Transports/Wolverine.RabbitMQ/Internal/RabbitMqTransport.cs:83-99 | Resolution succeeds exactly for the types `queue` and `exchange`. `queue` gives the queue cache entry for the name and leaves the exchange cache alone. `exchange` gives the exchange cache entry and leaves the queue cache alone. Any other type fails with an argument-out-of-range error on `uri`, naming the type, and yields no new state. |
| RabbitMqTransport.BuildResponseQueueEndpoint | src/Transports/Wolverine.RabbitMQ/Internal/RabbitMqTransport.cs:101-116 | Caches, under `wolverine.response.<node id>`, a queue of that name with these settings: role System, auto-delete, not durable, listener, used for replies, 5 listeners, endpoint name `RabbitMqResponses`. It replaces any queue of that name. No other queue, exchange or connection changes. |
| RabbitMqTransport.EndpointsLength | src/Transports/Wolverine.RabbitMQ/Internal/RabbitMqTransport.cs:65-81 | The enumeration has one element per exchange, per topic and per queue. The exchange blocks end where the queues begin. |
| RabbitMqTransport.EndpointsExchangeBlock | src/Transports/Wolverine.RabbitMQ/Internal/RabbitMqTransport.cs:67-75 | The i-th cached exchange is yielded at its block start, immediately followed by each of its topics in order. The next exchange's block starts right after its last topic. |
| RabbitMqTransport.EndpointsQueueAt | src/Transports/Wolverine.RabbitMQ/Internal/RabbitMqTransport.cs:77-80 | After all exchange blocks, the k-th cached queue is yielded at position k. |
| RabbitMqTransport.BindingsContents | src/Transports/Wolverine.RabbitMQ/Internal/RabbitMqTransport.cs:135-138 | The transport's bindings number as many as the exchanges' bindings together. A binding is listed iff some cached exchange declares it. |
| RabbitMqTransport.BindingsInOrder | src/Transports/Wolverine.RabbitMQ/Internal/RabbitMqTransport.cs:135-138 | The bindings are the exchanges' bindings concatenated in cache order. The i-th exchange's bindings sit in their own order from its start position. The next exchange's bindings begin right after them, and the last exchange's end where the list ends. |
| TransportLifecycle.ConnectionsBuiltAtMostOnce | src/Transports/Wolverine.RabbitMQ/Internal/RabbitMqTransport.cs:30-40 | Over any sequence of connects, connection reads, lookups, resolutions and reply-queue declarations, every built connection sits in exactly one slot. So at most two connections are ever built. |
| TransportLifecycle.ConnectionsNeverReplaced | src/Transports/Wolverine.RabbitMQ/Internal/RabbitMqTransport.cs:33-40 | Once a connection slot is filled it keeps the same connection across any sequence of calls. The build log only grows. |
| TransportLifecycle.RegistryStaysWellFormed | src/Transports/Wolverine.RabbitMQ/Internal/RabbitMqTransport.cs:25-27 | Across any sequence of calls each name occurs once per cache. Each entry is stored under its endpoint's own name. |
| TransportLifecycle.CachedEndpointsStable | src/Transports/Wolverine.RabbitMQ/Internal/RabbitMqTransport.cs:125-133 | Over any sequence of calls the caches only gain names. A cached exchange stays the one every later lookup of its name returns. So does a cached queue, unless a reply-queue declaration in the sequence writes that very name. |
| RabbitMqSender.OutgoingProperties | src/Transports/Wolverine.RabbitMQ/Internal/RabbitMqSender.cs:59-61 | The properties handed to the mapper have persistence equal to the durability flag and a fresh empty header map. Other fields keep the channel's defaults. |
| RabbitMqSender.NewSender | src/Transports/Wolverine.RabbitMQ/Internal/RabbitMqSender.cs:28-45 | The sender's destination is the endpoint's URI. It is durable iff the endpoint mode is Durable. The exchange name comes from the endpoint. In Static mode every envelope maps to the endpoint's routing key; in topic mode it maps to the topic-name function's value. The agent runs on the transport's sending connection, which is built only if that slot was empty. Connecting the new agent, which is assumed to start Disconnected, opened one channel, made it the current one and left the agent in the outcome's state. With a coherent outcome a Connected agent holds an open channel. |
| RabbitMqSender.SupportsNativeScheduledSend | src/Transports/Wolverine.RabbitMQ/Internal/RabbitMqSender.cs:47 | Native scheduled send is never supported. |
| RabbitMqSender.SendAsync | src/Transports/Wolverine.RabbitMQ/Internal/RabbitMqSender.cs:50-67 | A send on a Disconnected agent fails with the invalid-operation message naming the destination. A Connected agent with no channel fails on the null channel. Either way nothing is published. Otherwise exactly one publish is appended and nothing else changes. The publish carries the configured exchange name, the strategy's routing key and the envelope's bytes, and its properties are the mapper's result on the outgoing properties. |
| RabbitMqSender.ConsistentSendNeverHitsNullChannel | src/Transports/Wolverine.RabbitMQ/Internal/RabbitMqSender.cs:54-66 | When a Connected agent holds an open channel, a send fails exactly when the agent is Disconnected. |
| RabbitMqSender.PingAsync | src/Transports/Wolverine.RabbitMQ/Internal/RabbitMqSender.cs:69-88 | A Connected agent answers true and nothing changes; no channel is opened. Otherwise exactly one channel is opened and the answer is whether it reports open. If it does, that channel is current and the agent's state is the one the open left. If not, the channel is torn down and the state is the one the teardown left. Nothing outside the agent changes. |
| RabbitMqSender.StaticRoutingIgnoresEnvelope | src/Transports/Wolverine.RabbitMQ/Internal/RabbitMqSender.cs:37-39 | A Static-mode sender publishes any two envelopes under the same routing key, the endpoint's own. |
| RabbitMqSender.PingThenSend | src/Transports/Wolverine.RabbitMQ/Internal/RabbitMqSender.cs:54-83 | After a health check answers true, a send goes through exactly when the agent was already Connected on a channel, or was Disconnected and the channel open left it Connected. |
| RabbitMqSender.SenderStaysConsistent | src/Transports/Wolverine.RabbitMQ/Internal/RabbitMqSender.cs:54-86 | Over any sequence of sends and coherent health checks, a Connected sender keeps holding an open channel. So the publish at line 66 never runs without a channel. |
| ConnectionAgent.StartNewChannel | src/Transports/Wolverine.RabbitMQ/Internal/RabbitMqSender.cs:78 | Assumption about the agent's unseen code: opening counts one more channel and makes the new channel, open or not as the outcome says, the current one. The agent's state is the outcome's, and the connection is kept. |
| ConnectionAgent.TeardownChannel | src/Transports/Wolverine.RabbitMQ/Internal/RabbitMqSender.cs:85 | Assumption about the agent's unseen code: teardown drops the current channel and leaves the state the outcome gives. It opens nothing and keeps the connection. |
| ConnectionAgent.EnsureConnected | src/Transports/Wolverine.RabbitMQ/Internal/RabbitMqSender.cs:44 | Assumption about the agent's unseen code: a Connected agent is left alone, and otherwise one channel is opened. A coherent outcome keeps a Connected agent on an open channel. |
| RabbitMqSender.PublishesAndChannelsBounded | src/Transports/Wolverine.RabbitMQ/Internal/RabbitMqSender.cs:50-88 | Over any sequence of sends and health checks the publish log only grows, by at most one entry per send. At most one channel is opened per health check. The agent keeps its connection. |
| RabbitMqSender.NoPublishWhileDisconnected | src/Transports/Wolverine.RabbitMQ/Internal/RabbitMqSender.cs:54-57 | A Disconnected sender asked to send any number of times, with no health check in between, publishes nothing and does not change. |
| RabbitMqSender.PingsNeverReopenConnected | src/Transports/Wolverine.RabbitMQ/Internal/RabbitMqSender.cs:73-76 | Any number of health checks on a Connected sender change nothing and open no channel. |

## Left out

- RabbitMQ client calls (`CreateConnection`, `CreateBasicProperties`, `BasicPublish`, `Channel.IsOpen`): replaced by the connection build log, default property values, the publish log and the `ChannelOutcome` input.
- Envelope contents other than the body: only the mapper and the topic-name function read them, so the envelope carries them as one opaque metadata map.
- Connection and publish failures: `BuildConnection`, `StartNewChannel` and `BasicPublish` always succeed in the model. The broker's refusals would need a network model.
- `RabbitMqConnectionAgent`: its code is not part of this model. The state it is left in after opening or tearing down a channel is an input, not a promise of the model. That a new agent starts Disconnected with no channel is an assumption, so `NewSender`'s one opened channel rests on it. An exception from `EnsureConnected` during construction is not raised: the agent is left in whatever state the outcome gives.
- `TopicRouting.DetermineTopicName`, `BuildMapper` and `MapEnvelopeToOutgoing`: external collaborators, given as arbitrary functions.
- `InitializeAsync` on the sender's endpoint: its code is not part of this model; `SendAsync` treats it as a step with no effect on the modelled state.
- `Dispose`, `Close`, `SafeDispose`: resource release, outside the sequential model.
- `TryBuildStatefulResource` and `RabbitMqStatefulResource`: provisioning tooling whose code is not part of this model.
- `lock (Locker)`, `ValueTask` / `Task` and logging: the model is sequential and synchronous.
- .NET `Uri` parsing (`Host`, `Segments.Last()`): host and last segment are inputs.
- Cache enumeration order: the model enumerates a cache in insertion order. All traversal lemmas are stated relative to `NameCache.Values`, whatever order that is.
- `RabbitMqQueue` defaults: that class is not part of this model. `Topology.NewQueue` picks default flags, and no property depends on them beyond the name and the Application role.
- The base transport constructor's protocol name and display name: they identify the transport to the host framework and affect nothing modelled here.
