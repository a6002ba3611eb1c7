/**
  The RabbitMQ transport: its two name-keyed endpoint caches, the
  enumeration of every endpoint and binding, resolution of a destination to
  a cached endpoint, the per-node reply queue, and the two lazily built
  broker connections.

  The broker client is replaced by a log of the connections the transport
  has built: each built connection carries its position in that log, so two
  builds never yield the same connection.
*/
module RabbitMqTransport {
  import opened Wrappers
  import opened NameCache
  import opened Topology

  /** The logical endpoint name of the per-node reply queue. */
  const ResponseEndpointName: string := "RabbitMqResponses"

  /** The reply queue's broker name is this prefix followed by the node id. */
  const ResponseQueuePrefix: string := "wolverine.response."

  /** The number of parallel listeners on the reply queue. */
  const ResponseListenerCount: nat := 5

  /** An explicitly configured broker address. */
  datatype AmqpTcpEndpoint = AmqpTcpEndpoint(hostName: string, port: int)

  /** How a connection was dialled: over the configured address list, or with the factory's default address. */
  datatype ConnectionTarget =
    | ExplicitEndpoints(endpoints: seq<AmqpTcpEndpoint>)
    | FactoryDefault

  /** A broker connection; `serial` is its position in the transport's build log. */
  datatype Connection = Connection(serial: nat, target: ConnectionTarget)

  datatype Transport = Transport(
    automaticRecovery: bool,
    amqpTcpEndpoints: seq<AmqpTcpEndpoint>,
    exchanges: Cache<Exchange>,
    queues: Cache<Queue>,
    listenerConnection: Option<Connection>,
    sendingConnection: Option<Connection>,
    built: seq<Connection>)

  /** The error raised for a destination whose type segment is neither queue nor exchange. */
  datatype TransportError = ArgumentOutOfRange(paramName: string, message: string)

  /* ---------------------------------------------------------------------- */
  /* Invariants                                                              */
  /* ---------------------------------------------------------------------- */

  /** The number of connection slots that hold a connection. */
  function Filled(t: Transport): nat {
    (if t.listenerConnection.Some? then 1 else 0) + (if t.sendingConnection.Some? then 1 else 0)
  }

  /**
    Every built connection sits in exactly one slot: the log is as long as
    the number of filled slots, each filled slot holds a logged connection,
    and the two slots never share one.
  */
  ghost predicate Ledger(t: Transport) {
    && |t.built| == Filled(t)
    && (forall i :: 0 <= i < |t.built| ==> t.built[i].serial == i)
    && (t.listenerConnection.Some? ==> t.listenerConnection.value in t.built)
    && (t.sendingConnection.Some? ==> t.sendingConnection.value in t.built)
    && (t.listenerConnection.Some? && t.sendingConnection.Some? ==>
          t.listenerConnection.value != t.sendingConnection.value)
  }

  /** Each cache holds every name at most once, under the endpoint's own name. */
  ghost predicate RegistryWellFormed(t: Transport) {
    && UniqueKeys(t.exchanges)
    && UniqueKeys(t.queues)
    && (forall i :: 0 <= i < |t.queues.entries| ==> t.queues.entries[i].value.name == t.queues.entries[i].key)
    && (forall i :: 0 <= i < |t.exchanges.entries| ==> t.exchanges.entries[i].value.name == t.exchanges.entries[i].key)
  }

  /* ---------------------------------------------------------------------- */
  /* Construction and connections                                            */
  /* ---------------------------------------------------------------------- */

  /** A new transport: automatic recovery on, empty caches, no connection built yet. */
  function NewTransport(): (t: Transport)
    ensures t.automaticRecovery
    ensures Keys(t.exchanges) == {} && Keys(t.queues) == {}
    ensures Ledger(t) && RegistryWellFormed(t)
    ensures Filled(t) == 0
  {
    Transport(true, [], Empty(), Empty(), None, None, [])
  }

  /**
    Dials a new connection: over the configured address list exactly when
    that list is non-empty, with the factory default otherwise.
  */
  function BuildConnection(t: Transport): (r: (Transport, Connection))
    ensures r.1.target.ExplicitEndpoints? <==> |t.amqpTcpEndpoints| > 0
    ensures r.1.target.ExplicitEndpoints? ==> r.1.target.endpoints == t.amqpTcpEndpoints
    ensures r.1.serial == |t.built|
    ensures r.0 == t.(built := t.built + [r.1])
  {
    var target := if |t.amqpTcpEndpoints| > 0 then ExplicitEndpoints(t.amqpTcpEndpoints) else FactoryDefault;
    var c := Connection(|t.built|, target);
    (t.(built := t.built + [c]), c)
  }

  /** The listening connection, built on first use and cached afterwards. */
  function ListeningConnection(t: Transport): (r: (Transport, Connection))
    ensures r.0.listenerConnection == Some(r.1)
    ensures t.listenerConnection.Some? ==> r.0 == t && r.1 == t.listenerConnection.value
    ensures t.listenerConnection.None? ==>
              r.0 == t.(listenerConnection := Some(r.1), built := t.built + [r.1]) && r.1.serial == |t.built|
  {
    match t.listenerConnection
    case Some(c) => (t, c)
    case None =>
      var (t', c) := BuildConnection(t);
      (t'.(listenerConnection := Some(c)), c)
  }

  /** The sending connection, built on first use and cached afterwards. */
  function SendingConnection(t: Transport): (r: (Transport, Connection))
    ensures r.0.sendingConnection == Some(r.1)
    ensures t.sendingConnection.Some? ==> r.0 == t && r.1 == t.sendingConnection.value
    ensures t.sendingConnection.None? ==>
              r.0 == t.(sendingConnection := Some(r.1), built := t.built + [r.1]) && r.1.serial == |t.built|
  {
    match t.sendingConnection
    case Some(c) => (t, c)
    case None =>
      var (t', c) := BuildConnection(t);
      (t'.(sendingConnection := Some(c)), c)
  }

  /** Fills whichever of the two connection slots is still empty, listener first. */
  function ConnectAsync(t: Transport): (r: Transport)
    ensures r.listenerConnection.Some? && r.sendingConnection.Some?
    ensures t.listenerConnection.Some? ==> r.listenerConnection == t.listenerConnection
    ensures t.sendingConnection.Some? ==> r.sendingConnection == t.sendingConnection
    ensures t.built <= r.built && |r.built| == |t.built| + (2 - Filled(t))
    ensures t.listenerConnection.None? ==> r.listenerConnection.value.serial == |t.built|
    ensures t.sendingConnection.None? ==>
              r.sendingConnection.value.serial == |t.built| + (if t.listenerConnection.None? then 1 else 0)
    ensures r == t.(listenerConnection := r.listenerConnection, sendingConnection := r.sendingConnection, built := r.built)
  {
    SendingConnection(ListeningConnection(t).0).0
  }

  /** Once both connections exist, connecting again builds nothing. */
  lemma ConnectIdempotent(t: Transport)
    ensures ConnectAsync(ConnectAsync(t)) == ConnectAsync(t)
    ensures t.listenerConnection.Some? && t.sendingConnection.Some? ==> ConnectAsync(t) == t
  {
  }

  /* ---------------------------------------------------------------------- */
  /* Endpoint registry                                                       */
  /* ---------------------------------------------------------------------- */

  /** The queue cached under `name`, created on first lookup. */
  function EndpointForQueue(t: Transport, name: string): (r: (Transport, Queue))
    ensures Lookup(r.0.queues, name) == Some(r.1)
    ensures name in Keys(t.queues) ==> r.0 == t
    ensures name !in Keys(t.queues) ==> r.1 == NewQueue(name)
    ensures Keys(r.0.queues) == Keys(t.queues) + {name}
    ensures forall k :: k != name ==> Lookup(r.0.queues, k) == Lookup(t.queues, k)
    ensures r.0 == t.(queues := r.0.queues)
  {
    var (c, q) := Get(t.queues, name, NewQueue);
    (t.(queues := c), q)
  }

  /** The exchange cached under `name`, created on first lookup. */
  function EndpointForExchange(t: Transport, name: string): (r: (Transport, Exchange))
    ensures Lookup(r.0.exchanges, name) == Some(r.1)
    ensures name in Keys(t.exchanges) ==> r.0 == t
    ensures name !in Keys(t.exchanges) ==> r.1 == NewExchange(name)
    ensures Keys(r.0.exchanges) == Keys(t.exchanges) + {name}
    ensures forall k :: k != name ==> Lookup(r.0.exchanges, k) == Lookup(t.exchanges, k)
    ensures r.0 == t.(exchanges := r.0.exchanges)
  {
    var (c, x) := Get(t.exchanges, name, NewExchange);
    (t.(exchanges := c), x)
  }

  /** The error message for an unknown destination type. */
  function InvalidTypeMessage(objectType: string): string {
    "Invalid Rabbit MQ object type '" + objectType + "'"
  }

  /**
    Resolves a destination, given its host (the object type) and the last
    segment of its path (the object name), to the cached endpoint.
  */
  function FindEndpointByUri(t: Transport, host: string, name: string): (r: Result<(Transport, Endpoint), TransportError>)
    ensures r.Success? <==> host == QueueSegment || host == ExchangeSegment
    ensures host == QueueSegment ==>
              && r.value.1.QueueEndpoint?
              && Lookup(r.value.0.queues, name) == Some(r.value.1.queue)
              && r.value.0.exchanges == t.exchanges
              && (r.value.0, r.value.1.queue) == EndpointForQueue(t, name)
    ensures host == ExchangeSegment ==>
              && r.value.1.ExchangeEndpoint?
              && Lookup(r.value.0.exchanges, name) == Some(r.value.1.exchange)
              && r.value.0.queues == t.queues
              && (r.value.0, r.value.1.exchange) == EndpointForExchange(t, name)
    ensures r.Failure? ==> r.error == ArgumentOutOfRange("uri", InvalidTypeMessage(host))
  {
    if host == QueueSegment then
      var (t', q) := EndpointForQueue(t, name);
      Success((t', QueueEndpoint(q)))
    else if host == ExchangeSegment then
      var (t', x) := EndpointForExchange(t, name);
      Success((t', ExchangeEndpoint(x)))
    else
      Failure(ArgumentOutOfRange("uri", InvalidTypeMessage(host)))
  }

  /** The reply queue for the node with the given id. */
  function ResponseQueue(nodeId: string): Queue {
    Queue(ResponseQueuePrefix + nodeId, System,
          true,   // auto-delete
          false,  // not durable
          true,   // listener
          true,   // used for replies
          ResponseListenerCount,
          Some(ResponseEndpointName))
  }

  /**
    Declares the node's reply queue, storing it under its own name and
    replacing any queue already cached under that name.
  */
  function BuildResponseQueueEndpoint(t: Transport, nodeId: string): (r: Transport)
    ensures "wolverine.response." + nodeId in Keys(r.queues)
    ensures var q := Lookup(r.queues, "wolverine.response." + nodeId).value;
            && q.name == "wolverine.response." + nodeId
            && q.role == System
            && q.autoDelete && !q.isDurable && q.isListener && q.isUsedForReplies
            && q.listenerCount == 5
            && q.endpointName == Some("RabbitMqResponses")
    ensures forall k :: k != "wolverine.response." + nodeId ==> Lookup(r.queues, k) == Lookup(t.queues, k)
    ensures r == t.(queues := r.queues)
  {
    var q := ResponseQueue(nodeId);
    t.(queues := Set(t.queues, q.name, q))
  }

  /* ---------------------------------------------------------------------- */
  /* Enumeration                                                             */
  /* ---------------------------------------------------------------------- */

  /** The number of topics across a sequence of exchanges. */
  function TopicCount(exs: seq<Exchange>): nat {
    if |exs| == 0 then 0 else TopicCount(exs[..|exs| - 1]) + |exs[|exs| - 1].topics|
  }

  /** The number of bindings across a sequence of exchanges. */
  function BindingCount(exs: seq<Exchange>): nat {
    if |exs| == 0 then 0 else BindingCount(exs[..|exs| - 1]) + |exs[|exs| - 1].bindings|
  }

  function TopicEndpoints(ts: seq<Topic>): seq<Endpoint> {
    seq(|ts|, j requires 0 <= j < |ts| => TopicEndpoint(ts[j]))
  }

  function QueueEndpoints(qs: seq<Queue>): seq<Endpoint> {
    seq(|qs|, k requires 0 <= k < |qs| => QueueEndpoint(qs[k]))
  }

  /** Each exchange followed by its topics, exchange after exchange. */
  function ExchangeEndpoints(exs: seq<Exchange>): seq<Endpoint> {
    if |exs| == 0 then []
    else
      var x := exs[|exs| - 1];
      ExchangeEndpoints(exs[..|exs| - 1]) + [ExchangeEndpoint(x)] + TopicEndpoints(x.topics)
  }

  /** Every endpoint of the transport: the exchange blocks, then every queue. */
  function Endpoints(t: Transport): seq<Endpoint> {
    ExchangeEndpoints(Values(t.exchanges)) + QueueEndpoints(Values(t.queues))
  }

  /** Every exchange's bindings, concatenated in exchange order. */
  function ExchangeBindings(exs: seq<Exchange>): seq<Binding> {
    if |exs| == 0 then [] else ExchangeBindings(exs[..|exs| - 1]) + exs[|exs| - 1].bindings
  }

  function Bindings(t: Transport): seq<Binding> {
    ExchangeBindings(Values(t.exchanges))
  }

  /** The position in the enumeration at which the `i`-th exchange appears. */
  function BlockStart(exs: seq<Exchange>, i: nat): nat
    requires i <= |exs|
  {
    i + TopicCount(exs[..i])
  }

  lemma {:induction false} ExchangeEndpointsLength(exs: seq<Exchange>)
    ensures |ExchangeEndpoints(exs)| == |exs| + TopicCount(exs)
  {
    if |exs| > 0 {
      ExchangeEndpointsLength(exs[..|exs| - 1]);
    }
  }

  lemma {:induction false} ExchangeEndpointsPrefix(exs: seq<Exchange>, m: nat)
    requires m <= |exs|
    ensures ExchangeEndpoints(exs[..m]) <= ExchangeEndpoints(exs)
    decreases |exs|
  {
    if m < |exs| {
      var init := exs[..|exs| - 1];
      assert init[..m] == exs[..m];
      ExchangeEndpointsPrefix(init, m);
    } else {
      assert exs[..m] == exs;
    }
  }

  /** The `i`-th exchange's block: the exchange at `BlockStart`, then each of its topics. */
  lemma ExchangeBlockAt(exs: seq<Exchange>, i: nat)
    requires i < |exs|
    ensures BlockStart(exs, i + 1) == BlockStart(exs, i) + 1 + |exs[i].topics|
    ensures BlockStart(exs, i + 1) <= |ExchangeEndpoints(exs)|
    ensures ExchangeEndpoints(exs)[BlockStart(exs, i)] == ExchangeEndpoint(exs[i])
    ensures forall j :: 0 <= j < |exs[i].topics| ==>
              ExchangeEndpoints(exs)[BlockStart(exs, i) + 1 + j] == TopicEndpoint(exs[i].topics[j])
  {
    var p := exs[..i + 1];
    assert p[..|p| - 1] == exs[..i];
    assert p[|p| - 1] == exs[i];
    ExchangeEndpointsLength(exs[..i]);
    ExchangeEndpointsLength(exs[..i + 1]);
    ExchangeEndpointsPrefix(exs, i + 1);
  }

  /** The enumeration holds every exchange, every topic and every queue once each. */
  lemma EndpointsLength(t: Transport)
    ensures |Endpoints(t)| ==
            |t.exchanges.entries| + TopicCount(Values(t.exchanges)) + |t.queues.entries|
    ensures BlockStart(Values(t.exchanges), |t.exchanges.entries|) ==
            |t.exchanges.entries| + TopicCount(Values(t.exchanges))
  {
    var exs := Values(t.exchanges);
    assert exs[..|exs|] == exs;
    ExchangeEndpointsLength(exs);
  }

  /**
    The `i`-th cached exchange appears at `BlockStart`, immediately followed
    by its topics in order, and the next exchange's block starts right after.
  */
  lemma EndpointsExchangeBlock(t: Transport, i: nat)
    requires i < |t.exchanges.entries|
    ensures var exs := Values(t.exchanges);
            && BlockStart(exs, i + 1) == BlockStart(exs, i) + 1 + |exs[i].topics|
            && BlockStart(exs, i + 1) <= |Endpoints(t)|
            && Endpoints(t)[BlockStart(exs, i)] == ExchangeEndpoint(t.exchanges.entries[i].value)
            && forall j :: 0 <= j < |exs[i].topics| ==>
                 Endpoints(t)[BlockStart(exs, i) + 1 + j] == TopicEndpoint(exs[i].topics[j])
  {
    ExchangeBlockAt(Values(t.exchanges), i);
  }

  /** After every exchange block, the `k`-th cached queue. */
  lemma EndpointsQueueAt(t: Transport, k: nat)
    requires k < |t.queues.entries|
    ensures var n := |t.exchanges.entries| + TopicCount(Values(t.exchanges));
            n + k < |Endpoints(t)| && Endpoints(t)[n + k] == QueueEndpoint(t.queues.entries[k].value)
  {
    ExchangeEndpointsLength(Values(t.exchanges));
  }

  /** The position in `Bindings` at which the `i`-th exchange's bindings begin. */
  function BindingStart(exs: seq<Exchange>, i: nat): nat
    requires i <= |exs|
  {
    BindingCount(exs[..i])
  }

  lemma {:induction false} ExchangeBindingsPrefix(exs: seq<Exchange>, m: nat)
    requires m <= |exs|
    ensures ExchangeBindings(exs[..m]) <= ExchangeBindings(exs)
    decreases |exs|
  {
    if m < |exs| {
      var init := exs[..|exs| - 1];
      assert init[..m] == exs[..m];
      ExchangeBindingsPrefix(init, m);
    } else {
      assert exs[..m] == exs;
    }
  }

  /**
    The transport's bindings are its exchanges' bindings concatenated in
    cache order: the `i`-th exchange's bindings sit, in their own order,
    from `BindingStart(i)` up to where the next exchange's begin, and the
    last exchange's end where the list ends.
  */
  lemma BindingsInOrder(t: Transport, i: nat)
    requires i < |t.exchanges.entries|
    ensures var exs := Values(t.exchanges);
            && BindingStart(exs, i + 1) == BindingStart(exs, i) + |exs[i].bindings|
            && BindingStart(exs, i + 1) <= |Bindings(t)|
            && BindingStart(exs, |exs|) == |Bindings(t)|
            && forall j :: 0 <= j < |exs[i].bindings| ==>
                 Bindings(t)[BindingStart(exs, i) + j] == t.exchanges.entries[i].value.bindings[j]
  {
    var exs := Values(t.exchanges);
    var p := exs[..i + 1];
    assert p[..|p| - 1] == exs[..i];
    assert p[|p| - 1] == exs[i];
    assert exs[..|exs|] == exs;
    ExchangeBindingsContents(exs[..i]);
    ExchangeBindingsContents(exs);
    ExchangeBindingsPrefix(exs, i + 1);
  }

  lemma {:induction false} ExchangeBindingsContents(exs: seq<Exchange>)
    ensures |ExchangeBindings(exs)| == BindingCount(exs)
    ensures forall b :: b in ExchangeBindings(exs) <==> exists i :: 0 <= i < |exs| && b in exs[i].bindings
  {
    if |exs| > 0 {
      var init := exs[..|exs| - 1];
      ExchangeBindingsContents(init);
      forall b
        ensures b in ExchangeBindings(exs) <==> exists i :: 0 <= i < |exs| && b in exs[i].bindings
      {
        if b in ExchangeBindings(init) {
          var i :| 0 <= i < |init| && b in init[i].bindings;
          assert exs[i] == init[i];
        }
        if exists i :: 0 <= i < |exs| && b in exs[i].bindings {
          var i :| 0 <= i < |exs| && b in exs[i].bindings;
          if i < |exs| - 1 {
            assert init[i] == exs[i];
          }
        }
      }
    }
  }

  /**
    The transport's bindings are exactly the bindings of its exchanges: as
    many as they hold together, and a binding appears iff some exchange
    declares it.
  */
  lemma BindingsContents(t: Transport)
    ensures |Bindings(t)| == BindingCount(Values(t.exchanges))
    ensures forall b :: b in Bindings(t) <==>
              exists i :: 0 <= i < |t.exchanges.entries| && b in t.exchanges.entries[i].value.bindings
  {
    var exs := Values(t.exchanges);
    ExchangeBindingsContents(exs);
    forall b | b in Bindings(t)
      ensures exists i :: 0 <= i < |t.exchanges.entries| && b in t.exchanges.entries[i].value.bindings
    {
      var i :| 0 <= i < |exs| && b in exs[i].bindings;
      assert b in t.exchanges.entries[i].value.bindings;
    }
    forall b | exists i :: 0 <= i < |t.exchanges.entries| && b in t.exchanges.entries[i].value.bindings
      ensures b in Bindings(t)
    {
      var i :| 0 <= i < |t.exchanges.entries| && b in t.exchanges.entries[i].value.bindings;
      assert b in exs[i].bindings;
    }
  }
}
