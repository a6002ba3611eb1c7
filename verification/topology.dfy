/**
  The broker objects the transport registers: queues, exchanges, the topics
  nested under an exchange, and the exchange bindings.
*/
module Topology {
  import opened Wrappers

  /** Whether an endpoint belongs to the application or to the messaging system itself. */
  datatype EndpointRole = Application | System

  /** A queue endpoint with the flags the transport sets on it. */
  datatype Queue = Queue(
    name: string,
    role: EndpointRole,
    autoDelete: bool,
    isDurable: bool,
    isListener: bool,
    isUsedForReplies: bool,
    listenerCount: nat,
    endpointName: Option<string>)

  /** A named topic endpoint nested under an exchange. */
  datatype Topic = Topic(exchangeName: string, topicName: string)

  /** A declared exchange-to-queue binding with its routing key pattern. */
  datatype Binding = Binding(exchangeName: string, bindingKey: string, queueName: string)

  /** An exchange with its topic sub-endpoints and its bindings, in declaration order. */
  datatype Exchange = Exchange(name: string, topics: seq<Topic>, bindings: seq<Binding>)

  /** Any endpoint the transport enumerates. */
  datatype Endpoint =
    | ExchangeEndpoint(exchange: Exchange)
    | TopicEndpoint(topic: Topic)
    | QueueEndpoint(queue: Queue)

  /** The host segment of a destination URI naming a queue. */
  const QueueSegment: string := "queue"

  /** The host segment of a destination URI naming an exchange. */
  const ExchangeSegment: string := "exchange"

  /**
    The queue cache's factory: an application queue with the queue type's
    default settings.
  */
  function NewQueue(name: string): Queue {
    Queue(name, Application, false, true, false, false, 1, None)
  }

  /** The exchange cache's factory: an exchange with no topics and no bindings yet. */
  function NewExchange(name: string): Exchange {
    Exchange(name, [], [])
  }
}
