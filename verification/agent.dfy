/**
  The per-endpoint connection agent that the sender extends: the broker
  connection it was given, its Connected/Disconnected state and its current
  channel.

  The agent's own code is not part of this model. What happens inside it when
  it opens or tears down a channel is therefore an input, a `ChannelOutcome`:
  whether the new channel reports open, the state the agent is left in after
  opening it, and the state it is left in after tearing it down. The only
  things fixed here are the ones the sender's code relies on: opening counts
  one channel and makes it the current one, and tearing down drops it.
*/
module ConnectionAgent {
  import opened Wrappers
  import RabbitMqTransport

  datatype AgentState = Connected | Disconnected

  /** A broker channel; `serial` counts the channels the agent has opened before it. */
  datatype Channel = Channel(serial: nat, isOpen: bool)

  /** The broker's and the agent's decisions when a channel is opened and, if need be, torn down. */
  datatype ChannelOutcome = ChannelOutcome(
    isOpen: bool,
    stateAfterOpen: AgentState,
    stateAfterTeardown: AgentState)

  /**
    An outcome that never leaves the agent Connected without an open channel:
    it only reports Connected after opening an open channel, and a teardown
    leaves it Disconnected.
  */
  predicate Coherent(o: ChannelOutcome) {
    && (o.stateAfterOpen == Connected ==> o.isOpen)
    && o.stateAfterTeardown == Disconnected
  }

  datatype Agent = Agent(
    connection: RabbitMqTransport.Connection,
    state: AgentState,
    channel: Option<Channel>,
    channelsOpened: nat)

  /** A Connected agent holds an open channel to publish on. */
  ghost predicate Consistent(a: Agent) {
    a.state == Connected ==> a.channel.Some? && a.channel.value.isOpen
  }

  /**
    A new agent on `connection`. Assumption about the agent's unseen
    constructor: it starts Disconnected, with no channel and none opened.
  */
  function NewAgent(connection: RabbitMqTransport.Connection): Agent {
    Agent(connection, Disconnected, None, 0)
  }

  /** Opens a new channel and makes it the current one; the outcome says how it went. */
  function StartNewChannel(a: Agent, o: ChannelOutcome): (r: Agent)
    ensures r.channelsOpened == a.channelsOpened + 1
    ensures r.channel == Some(Channel(a.channelsOpened, o.isOpen))
    ensures r.state == o.stateAfterOpen
    ensures r.connection == a.connection
    ensures Coherent(o) ==> Consistent(r)
  {
    Agent(a.connection, o.stateAfterOpen, Some(Channel(a.channelsOpened, o.isOpen)), a.channelsOpened + 1)
  }

  /** Drops the current channel; the outcome says which state the agent is left in. */
  function TeardownChannel(a: Agent, o: ChannelOutcome): (r: Agent)
    ensures r.channel.None? && r.state == o.stateAfterTeardown
    ensures r.channelsOpened == a.channelsOpened && r.connection == a.connection
    ensures Coherent(o) ==> Consistent(r)
  {
    a.(state := o.stateAfterTeardown, channel := None)
  }

  /** Opens a channel unless the agent is already Connected. */
  function EnsureConnected(a: Agent, o: ChannelOutcome): (r: Agent)
    ensures a.state == Connected ==> r == a
    ensures a.state == Disconnected ==> r == StartNewChannel(a, o)
    ensures Consistent(a) && Coherent(o) ==> Consistent(r)
  {
    if a.state == Connected then a else StartNewChannel(a, o)
  }
}
