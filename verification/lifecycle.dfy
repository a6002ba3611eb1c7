/**
  Properties of the transport over any sequence of its operations: each of
  the two connection slots is built at most once and never replaced, the
  registry keeps every name unique and stored under its own name, and a
  cached endpoint is never replaced except by the reply-queue declaration.
*/
module TransportLifecycle {
  import opened Wrappers
  import opened NameCache
  import opened Topology
  import opened RabbitMqTransport

  /** One call into the transport. */
  datatype TransportOp =
    | Connect
    | Listening
    | Sending
    | QueueLookup(queueName: string)
    | ExchangeLookup(exchangeName: string)
    | Resolve(host: string, name: string)
    | DeclareReplyQueue(nodeId: string)

  /** The transport after one call; a failed resolution leaves it as it was. */
  function Apply(t: Transport, op: TransportOp): Transport {
    match op
    case Connect => ConnectAsync(t)
    case Listening => ListeningConnection(t).0
    case Sending => SendingConnection(t).0
    case QueueLookup(n) => EndpointForQueue(t, n).0
    case ExchangeLookup(n) => EndpointForExchange(t, n).0
    case Resolve(h, n) =>
      (match FindEndpointByUri(t, h, n)
       case Success(p) => p.0
       case Failure(_) => t)
    case DeclareReplyQueue(id) => BuildResponseQueueEndpoint(t, id)
  }

  function Run(t: Transport, ops: seq<TransportOp>): Transport
    decreases |ops|
  {
    if |ops| == 0 then t else Run(Apply(t, ops[0]), ops[1..])
  }

  lemma ListeningKeepsLedger(t: Transport)
    requires Ledger(t)
    ensures Ledger(ListeningConnection(t).0)
  {
  }

  lemma SendingKeepsLedger(t: Transport)
    requires Ledger(t)
    ensures Ledger(SendingConnection(t).0)
  {
  }

  lemma ApplyKeepsLedger(t: Transport, op: TransportOp)
    requires Ledger(t)
    ensures Ledger(Apply(t, op))
  {
    match op
    case Connect =>
      ListeningKeepsLedger(t);
      SendingKeepsLedger(ListeningConnection(t).0);
    case Listening => ListeningKeepsLedger(t);
    case Sending => SendingKeepsLedger(t);
    case QueueLookup(n) =>
    case ExchangeLookup(n) =>
    case Resolve(h, n) =>
    case DeclareReplyQueue(id) =>
  }

  /**
    Each connection slot is built at most once: starting from a transport
    whose build log matches its slots (a new transport does), every build
    fills an empty slot, so no more than two connections are ever built.
  */
  lemma {:induction false} ConnectionsBuiltAtMostOnce(t: Transport, ops: seq<TransportOp>)
    requires Ledger(t)
    ensures Ledger(Run(t, ops))
    ensures |Run(t, ops).built| == Filled(Run(t, ops)) <= 2
    decreases |ops|
  {
    if |ops| > 0 {
      ApplyKeepsLedger(t, ops[0]);
      ConnectionsBuiltAtMostOnce(Apply(t, ops[0]), ops[1..]);
    }
  }

  lemma ApplyKeepsSlots(t: Transport, op: TransportOp)
    ensures t.listenerConnection.Some? ==> Apply(t, op).listenerConnection == t.listenerConnection
    ensures t.sendingConnection.Some? ==> Apply(t, op).sendingConnection == t.sendingConnection
    ensures t.built <= Apply(t, op).built
  {
  }

  /** A filled connection slot is never rebuilt or replaced, and the build log only grows. */
  lemma {:induction false} ConnectionsNeverReplaced(t: Transport, ops: seq<TransportOp>)
    ensures t.listenerConnection.Some? ==> Run(t, ops).listenerConnection == t.listenerConnection
    ensures t.sendingConnection.Some? ==> Run(t, ops).sendingConnection == t.sendingConnection
    ensures t.built <= Run(t, ops).built
    decreases |ops|
  {
    if |ops| > 0 {
      ApplyKeepsSlots(t, ops[0]);
      ConnectionsNeverReplaced(Apply(t, ops[0]), ops[1..]);
    }
  }

  lemma QueueLookupKeepsRegistryWellFormed(t: Transport, name: string)
    requires RegistryWellFormed(t)
    ensures RegistryWellFormed(EndpointForQueue(t, name).0)
  {
  }

  lemma ExchangeLookupKeepsRegistryWellFormed(t: Transport, name: string)
    requires RegistryWellFormed(t)
    ensures RegistryWellFormed(EndpointForExchange(t, name).0)
  {
  }

  lemma ReplyQueueKeepsRegistryWellFormed(t: Transport, nodeId: string)
    requires RegistryWellFormed(t)
    ensures RegistryWellFormed(BuildResponseQueueEndpoint(t, nodeId))
  {
    var q := ResponseQueue(nodeId);
    var c' := BuildResponseQueueEndpoint(t, nodeId).queues;
    forall i | 0 <= i < |c'.entries|
      ensures c'.entries[i].value.name == c'.entries[i].key
    {
      if i < |t.queues.entries| {
        assert c'.entries[i] == t.queues.entries[i] || c'.entries[i] == Entry(q.name, q);
      }
    }
  }

  lemma ApplyKeepsRegistryWellFormed(t: Transport, op: TransportOp)
    requires RegistryWellFormed(t)
    ensures RegistryWellFormed(Apply(t, op))
  {
    match op
    case Connect =>
    case Listening =>
    case Sending =>
    case QueueLookup(n) => QueueLookupKeepsRegistryWellFormed(t, n);
    case ExchangeLookup(n) => ExchangeLookupKeepsRegistryWellFormed(t, n);
    case Resolve(h, n) =>
      if h == QueueSegment {
        QueueLookupKeepsRegistryWellFormed(t, n);
      } else if h == ExchangeSegment {
        ExchangeLookupKeepsRegistryWellFormed(t, n);
      }
    case DeclareReplyQueue(id) => ReplyQueueKeepsRegistryWellFormed(t, id);
  }

  /** Every operation keeps each name unique in its cache and stored under the endpoint's own name. */
  lemma {:induction false} RegistryStaysWellFormed(t: Transport, ops: seq<TransportOp>)
    requires RegistryWellFormed(t)
    ensures RegistryWellFormed(Run(t, ops))
    decreases |ops|
  {
    if |ops| > 0 {
      ApplyKeepsRegistryWellFormed(t, ops[0]);
      RegistryStaysWellFormed(Apply(t, ops[0]), ops[1..]);
    }
  }

  /** The queue names the reply-queue declarations among `ops` write to. */
  function DeclaredQueueNames(ops: seq<TransportOp>): set<string>
    decreases |ops|
  {
    if |ops| == 0 then {}
    else
      (if ops[0].DeclareReplyQueue? then {ResponseQueuePrefix + ops[0].nodeId} else {})
      + DeclaredQueueNames(ops[1..])
  }

  lemma ApplyKeepsEntries(t: Transport, op: TransportOp)
    ensures Keys(t.queues) <= Keys(Apply(t, op).queues)
    ensures Keys(t.exchanges) <= Keys(Apply(t, op).exchanges)
    ensures forall k :: k in Keys(t.exchanges) ==> Lookup(Apply(t, op).exchanges, k) == Lookup(t.exchanges, k)
    ensures forall k :: k in Keys(t.queues) && k !in DeclaredQueueNames([op]) ==>
              Lookup(Apply(t, op).queues, k) == Lookup(t.queues, k)
  {
  }

  /**
    Once cached, an endpoint stays the one returned for its name, unless a
    later reply-queue declaration writes that very name; the caches only
    ever gain names.
  */
  lemma {:induction false} CachedEndpointsStable(t: Transport, ops: seq<TransportOp>)
    ensures Keys(t.queues) <= Keys(Run(t, ops).queues)
    ensures Keys(t.exchanges) <= Keys(Run(t, ops).exchanges)
    ensures forall k :: k in Keys(t.exchanges) ==> Lookup(Run(t, ops).exchanges, k) == Lookup(t.exchanges, k)
    ensures forall k :: k in Keys(t.queues) && k !in DeclaredQueueNames(ops) ==>
              Lookup(Run(t, ops).queues, k) == Lookup(t.queues, k)
    decreases |ops|
  {
    if |ops| > 0 {
      ApplyKeepsEntries(t, ops[0]);
      CachedEndpointsStable(Apply(t, ops[0]), ops[1..]);
      assert DeclaredQueueNames(ops) == DeclaredQueueNames([ops[0]]) + DeclaredQueueNames(ops[1..]);
    }
  }
}
