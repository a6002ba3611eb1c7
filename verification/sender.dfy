/**
  The RabbitMQ sender: fixes its destination, durability, exchange and
  routing-key strategy once at construction, refuses to publish while its
  agent is Disconnected, and answers health checks without reopening a
  connected agent.

  The envelope mapper and the topic-name routing function are collaborators
  whose behaviour is not modelled: the sender receives them as arbitrary
  functions. Each publish on the agent's channel is recorded in a log.
*/
module RabbitMqSender {
  import opened Wrappers
  import opened ConnectionAgent
  import RabbitMqTransport

  newtype byte = x: int | 0 <= x < 256

  /** How an endpoint delivers messages; only Durable makes published messages persistent. */
  datatype EndpointMode = Durable | BufferedInMemory | Inline

  /** Whether the routing key is the endpoint's fixed key or derived from each envelope's topic. */
  datatype RoutingMode = Static | ByTopic

  /**
    The outgoing message: its body, and the metadata that only the mapper and
    the topic-name function read.
  */
  datatype Envelope = Envelope(data: seq<byte>, metadata: map<string, string>)

  /** The broker's message properties; `headers` is absent until the sender attaches a map. */
  datatype BasicProperties = BasicProperties(
    persistent: bool,
    headers: Option<map<string, string>>,
    messageId: Option<string>,
    contentType: Option<string>)

  /** What the sender reads from the endpoint it sends to. */
  datatype SenderEndpoint = SenderEndpoint(
    uri: string,
    mode: EndpointMode,
    exchangeName: string,
    routingKey: string)

  /** One publish on the agent's channel. */
  datatype Publish = Publish(
    exchange: string,
    routingKey: string,
    properties: BasicProperties,
    body: seq<byte>)

  /**
    Why a send raised: the agent is Disconnected, or it is Connected but
    holds no channel, so reading the channel's properties dereferences null.
  */
  datatype SendError = InvalidOperation(message: string) | NullChannel

  datatype Sender = Sender(
    destination: string,
    isDurable: bool,
    exchangeName: string,
    toRoutingKey: Envelope -> string,
    mapper: (Envelope, BasicProperties) -> BasicProperties,
    agent: Agent,
    published: seq<Publish>)

  /** The properties a new channel hands out, before the sender touches them. */
  function CreateBasicProperties(): BasicProperties {
    BasicProperties(false, None, None, None)
  }

  /**
    The properties the mapper receives: persistence set from the durability
    flag and a fresh, empty header map attached.
  */
  function OutgoingProperties(isDurable: bool): (p: BasicProperties)
    ensures p.persistent == isDurable
    ensures p.headers == Some(map[])
    ensures p.messageId == CreateBasicProperties().messageId
    ensures p.contentType == CreateBasicProperties().contentType
  {
    CreateBasicProperties().(persistent := isDurable, headers := Some(map[]))
  }

  /**
    Builds a sender for `endpoint`: takes the transport's sending connection
    (building it if this is its first use), fixes the routing-key strategy
    for good, and connects the agent once.
  */
  function NewSender(
    t: RabbitMqTransport.Transport,
    endpoint: SenderEndpoint,
    routing: RoutingMode,
    determineTopicName: Envelope -> string,
    mapper: (Envelope, BasicProperties) -> BasicProperties,
    outcome: ChannelOutcome): (r: (RabbitMqTransport.Transport, Sender))
    ensures r.0 == RabbitMqTransport.SendingConnection(t).0
    ensures r.1.agent.connection == RabbitMqTransport.SendingConnection(t).1
    ensures t.sendingConnection.Some? ==> r.0 == t && r.1.agent.connection == t.sendingConnection.value
    ensures r.1.destination == endpoint.uri
    ensures r.1.isDurable <==> endpoint.mode == Durable
    ensures r.1.exchangeName == endpoint.exchangeName
    ensures routing == Static ==> forall e :: r.1.toRoutingKey(e) == endpoint.routingKey
    ensures routing == ByTopic ==> forall e :: r.1.toRoutingKey(e) == determineTopicName(e)
    ensures r.1.mapper == mapper
    ensures r.1.agent.channelsOpened == 1
    ensures r.1.agent.channel == Some(Channel(0, outcome.isOpen))
    ensures r.1.agent.state == outcome.stateAfterOpen
    ensures Coherent(outcome) ==> Consistent(r.1.agent)
    ensures r.1.published == []
  {
    var (t', connection) := RabbitMqTransport.SendingConnection(t);
    var key := endpoint.routingKey;
    var toRoutingKey := if routing == Static then (_ => key) else determineTopicName;
    var agent := EnsureConnected(NewAgent(connection), outcome);
    (t', Sender(endpoint.uri, endpoint.mode == Durable, endpoint.exchangeName, toRoutingKey, mapper, agent, []))
  }

  /** The broker offers no delayed delivery to this sender. */
  function SupportsNativeScheduledSend(s: Sender): (r: bool)
    ensures !r
  {
    false
  }

  function DisconnectedMessage(destination: string): string {
    "The RabbitMQ agent for " + destination + " is disconnected"
  }

  /**
    Publishes `envelope` on the agent's channel, or refuses with an
    invalid-operation error while the agent is Disconnected. A Connected
    agent without a channel fails on the null channel before publishing.
  */
  function SendAsync(s: Sender, envelope: Envelope): (r: Result<Sender, SendError>)
    ensures r.Failure? <==> s.agent.state == Disconnected || s.agent.channel.None?
    ensures s.agent.state == Disconnected ==> r == Failure(InvalidOperation(DisconnectedMessage(s.destination)))
    ensures s.agent.state == Connected && s.agent.channel.None? ==> r == Failure(NullChannel)
    ensures r.Success? ==>
              && |r.value.published| == |s.published| + 1
              && r.value.published[..|s.published|] == s.published
              && r.value == s.(published := r.value.published)
    ensures r.Success? ==>
              var p := r.value.published[|s.published|];
              && p.exchange == s.exchangeName
              && p.routingKey == s.toRoutingKey(envelope)
              && p.body == envelope.data
              && p.properties == s.mapper(envelope, OutgoingProperties(s.isDurable))
  {
    if s.agent.state == Disconnected then
      Failure(InvalidOperation(DisconnectedMessage(s.destination)))
    else if s.agent.channel.None? then
      Failure(NullChannel)
    else
      var props := s.mapper(envelope, OutgoingProperties(s.isDurable));
      var routingKey := s.toRoutingKey(envelope);
      Success(s.(published := s.published + [Publish(s.exchangeName, routingKey, props, envelope.data)]))
  }

  /** A sender whose Connected agent holds an open channel fails a send only when Disconnected. */
  lemma ConsistentSendNeverHitsNullChannel(s: Sender, envelope: Envelope)
    requires Consistent(s.agent)
    ensures SendAsync(s, envelope).Failure? <==> s.agent.state == Disconnected
  {
  }

  /**
    The health check: true at once for a Connected agent; otherwise opens
    one new channel and answers whether it reports open, tearing it down
    when it does not.
  */
  function PingAsync(s: Sender, outcome: ChannelOutcome): (r: (Sender, bool))
    ensures s.agent.state == Connected ==> r.0 == s && r.1
    ensures s.agent.state == Disconnected ==>
              && r.1 == outcome.isOpen
              && r.0.agent.channelsOpened == s.agent.channelsOpened + 1
              && (r.1 ==> r.0.agent.channel == Some(Channel(s.agent.channelsOpened, true))
                          && r.0.agent.state == outcome.stateAfterOpen)
              && (!r.1 ==> r.0.agent.channel.None? && r.0.agent.state == outcome.stateAfterTeardown)
    ensures r.0 == s.(agent := r.0.agent)
    ensures r.0.agent.connection == s.agent.connection
    ensures Consistent(s.agent) && Coherent(outcome) ==> Consistent(r.0.agent)
  {
    if s.agent.state == Connected then
      (s, true)
    else
      var started := StartNewChannel(s.agent, outcome);
      if started.channel.value.isOpen then
        (s.(agent := started), true)
      else
        (s.(agent := TeardownChannel(started, outcome)), false)
  }

  /** With Static routing, every envelope is published under the endpoint's routing key, whatever it holds. */
  lemma StaticRoutingIgnoresEnvelope(
    t: RabbitMqTransport.Transport, endpoint: SenderEndpoint,
    determineTopicName: Envelope -> string, mapper: (Envelope, BasicProperties) -> BasicProperties,
    outcome: ChannelOutcome, e1: Envelope, e2: Envelope)
    ensures var s := NewSender(t, endpoint, Static, determineTopicName, mapper, outcome).1;
            && (SendAsync(s, e1).Success? ==> SendAsync(s, e1).value.published[0].routingKey == endpoint.routingKey)
            && (SendAsync(s, e1).Success? <==> SendAsync(s, e2).Success?)
            && (SendAsync(s, e1).Success? ==>
                  SendAsync(s, e1).value.published[0].routingKey == SendAsync(s, e2).value.published[0].routingKey)
  {
  }

  /**
    After a health check answers true, a send goes through exactly when the
    agent was already Connected on a channel or the channel open left it
    Connected.
  */
  lemma PingThenSend(s: Sender, outcome: ChannelOutcome, envelope: Envelope)
    requires PingAsync(s, outcome).1
    ensures SendAsync(PingAsync(s, outcome).0, envelope).Success? <==>
            if s.agent.state == Connected then s.agent.channel.Some?
            else outcome.stateAfterOpen == Connected
  {
  }

  /** One call on the sender: a send, or a health check with the channel outcome the broker gives. */
  datatype SenderOp = Send(envelope: Envelope) | Ping(outcome: ChannelOutcome)

  /** The sender after one call; a refused send leaves it as it was. */
  function Step(s: Sender, op: SenderOp): Sender {
    match op
    case Send(e) =>
      (match SendAsync(s, e)
       case Success(s') => s'
       case Failure(_) => s)
    case Ping(o) => PingAsync(s, o).0
  }

  function RunSender(s: Sender, ops: seq<SenderOp>): Sender
    decreases |ops|
  {
    if |ops| == 0 then s else RunSender(Step(s, ops[0]), ops[1..])
  }

  function SendCount(ops: seq<SenderOp>): nat {
    if |ops| == 0 then 0 else (if ops[0].Send? then 1 else 0) + SendCount(ops[1..])
  }

  function PingCount(ops: seq<SenderOp>): nat {
    if |ops| == 0 then 0 else (if ops[0].Ping? then 1 else 0) + PingCount(ops[1..])
  }

  /**
    Over any sequence of calls, the publish log only grows, by at most one
    entry per send, and at most one channel is opened per health check.
  */
  lemma {:induction false} PublishesAndChannelsBounded(s: Sender, ops: seq<SenderOp>)
    ensures s.published <= RunSender(s, ops).published
    ensures |RunSender(s, ops).published| <= |s.published| + SendCount(ops)
    ensures RunSender(s, ops).agent.channelsOpened <= s.agent.channelsOpened + PingCount(ops)
    ensures RunSender(s, ops).agent.connection == s.agent.connection
    decreases |ops|
  {
    if |ops| > 0 {
      PublishesAndChannelsBounded(Step(s, ops[0]), ops[1..]);
    }
  }

  /** A Disconnected sender that is never health-checked publishes nothing, however often it is asked to send. */
  lemma {:induction false} NoPublishWhileDisconnected(s: Sender, ops: seq<SenderOp>)
    requires s.agent.state == Disconnected
    requires forall i :: 0 <= i < |ops| ==> ops[i].Send?
    ensures RunSender(s, ops) == s
    decreases |ops|
  {
    if |ops| > 0 {
      assert ops[0].Send?;
      NoPublishWhileDisconnected(Step(s, ops[0]), ops[1..]);
    }
  }

  /** Health checks never reopen a Connected agent: any number of them changes nothing. */
  lemma {:induction false} PingsNeverReopenConnected(s: Sender, ops: seq<SenderOp>)
    requires s.agent.state == Connected
    requires forall i :: 0 <= i < |ops| ==> ops[i].Ping?
    ensures RunSender(s, ops) == s
    decreases |ops|
  {
    if |ops| > 0 {
      assert ops[0].Ping?;
      PingsNeverReopenConnected(Step(s, ops[0]), ops[1..]);
    }
  }

  /**
    A sender built with a coherent outcome publishes only while it holds an
    open channel, for as long as every health check meets a coherent outcome.
  */
  lemma {:induction false} SenderStaysConsistent(s: Sender, ops: seq<SenderOp>)
    requires Consistent(s.agent)
    requires forall i :: 0 <= i < |ops| && ops[i].Ping? ==> Coherent(ops[i].outcome)
    ensures Consistent(RunSender(s, ops).agent)
    decreases |ops|
  {
    if |ops| > 0 {
      assert ops[0].Ping? ==> Coherent(ops[0].outcome);
      SenderStaysConsistent(Step(s, ops[0]), ops[1..]);
    }
  }
}
