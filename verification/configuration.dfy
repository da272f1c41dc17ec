/** Broker configuration of the in-memory broker: a default channel and a
    synchronous/asynchronous flag (sdk/src/in_memory/implementation.rs).
    The dispatcher never reads it. */
module Configuration {
  import opened Base
  import Regex
  import opened Channel

  /** The public configuration handed to `setup`. */
  datatype MessageBrokerConfiguration = MessageBrokerConfiguration(messageChannel: MessageChannel, isAsync: bool)

  /** The configuration as the broker keeps it, with the channel compiled. */
  datatype BrokerConfiguration = BrokerConfiguration(messageChannel: ChannelInternal, isAsync: bool)

  /** `configuration(kind, name, is_async)`: builds the public configuration. */
  function MakeConfiguration(kind: ChannelType, name: string, isAsync: bool): (r: MessageBrokerConfiguration)
    ensures r.messageChannel == MessageChannel(kind, name)
    ensures r.isAsync == isAsync
  {
    MessageBrokerConfiguration(MessageChannel(kind, name), isAsync)
  }

  /** The configuration the broker starts with: synchronous, with the
      default channel, which matches nothing. */
  function New(): (r: BrokerConfiguration)
    ensures !r.isAsync
    ensures r.messageChannel.channelType == Topic
    ensures forall e: Regex.Engine, target: MessageChannel :: !Matches(e, r.messageChannel, target)
  {
    BrokerConfiguration(Channel.Default(), false)
  }

  /** Compiles a public configuration; it fails exactly when its channel
      name is not a valid pattern, and otherwise keeps the flag. */
  function From(e: Regex.Engine, configuration: MessageBrokerConfiguration): (r: Result<BrokerConfiguration, ChannelError>)
    ensures r.Ok? <==> e.compiles(configuration.messageChannel.name)
    ensures r.Ok? ==> r.value.isAsync == configuration.isAsync
                      && Channel.From(e, configuration.messageChannel) == Ok(r.value.messageChannel)
    ensures r.Err? ==> r.error == InvalidPattern(configuration.messageChannel.name)
  {
    match Channel.From(e, configuration.messageChannel)
    case Ok(channel) => Ok(BrokerConfiguration(channel, configuration.isAsync))
    case Err(error) => Err(error)
  }

  /** Overwrites both fields: nothing of the previous configuration survives. */
  function Update(current: BrokerConfiguration, configuration: BrokerConfiguration): (r: BrokerConfiguration)
    ensures r.messageChannel == configuration.messageChannel
    ensures r.isAsync == configuration.isAsync
  {
    current.(messageChannel := configuration.messageChannel, isAsync := configuration.isAsync)
  }

  /** `setup`: compiles the new configuration and installs it; an invalid
      channel name is refused and installs nothing. */
  function Setup(e: Regex.Engine, current: BrokerConfiguration, configuration: MessageBrokerConfiguration)
    : (r: Result<BrokerConfiguration, ChannelError>)
    ensures r.Ok? <==> e.compiles(configuration.messageChannel.name)
    ensures r.Ok? ==> r.value.isAsync == configuration.isAsync
                      && r.value.messageChannel.channelType == configuration.messageChannel.channelType
                      && r.value.messageChannel.nameRegex == Some(configuration.messageChannel.name)
    ensures r.Err? ==> r.error == InvalidPattern(configuration.messageChannel.name)
  {
    match From(e, configuration)
    case Ok(compiled) => Ok(Update(current, compiled))
    case Err(error) => Err(error)
  }

  /** The last update wins: updating twice is updating once with the later
      configuration, whatever the earlier state was. */
  lemma UpdateLastWins(a: BrokerConfiguration, b: BrokerConfiguration, c: BrokerConfiguration)
    ensures Update(Update(a, b), c) == Update(a, c)
    ensures Update(a, c) == Update(b, c)
    ensures Update(c, c) == c
  {
  }

  /** Setting up `configuration(kind, name, is_async)` with a valid name
      installs a channel of that kind that accepts the match-all target,
      whatever was configured before. */
  lemma SetupOfConfiguration(e: Regex.Engine, a: BrokerConfiguration, b: BrokerConfiguration,
                             kind: ChannelType, name: string, isAsync: bool)
    requires e.compiles(name)
    ensures Setup(e, a, MakeConfiguration(kind, name, isAsync)) == Setup(e, b, MakeConfiguration(kind, name, isAsync))
    ensures Setup(e, a, MakeConfiguration(kind, name, isAsync)).Ok?
    ensures Matches(e, Setup(e, a, MakeConfiguration(kind, name, isAsync)).value.messageChannel, MessageChannel(kind, MatchAll))
    ensures Setup(e, a, MakeConfiguration(kind, name, isAsync)).value.isAsync == isAsync
  {
  }
}
