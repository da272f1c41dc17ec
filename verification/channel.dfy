/** Message channels of the in-memory broker and the matcher that decides
    whether a subscribed channel receives an event published to a target
    channel (sdk/src/in_memory/implementation.rs). */
module Channel {
  import opened Base
  import Regex

  /** TOPIC delivers to every matching subscriber, QUEUE to the first one. */
  datatype ChannelType = Topic | Queue

  /** The public channel: a kind and a name. Subscribers give a pattern as
      the name; publishers give a plain name or the match-all name "*".
      `message_channel(kind, name)` is this constructor. */
  datatype MessageChannel = MessageChannel(channelType: ChannelType, name: string)

  /** The channel as stored with a subscription: the kind and, once
      compiled, the name pattern (identified with its text). */
  datatype ChannelInternal = ChannelInternal(channelType: ChannelType, nameRegex: Option<string>)

  /** A subscription name that the engine refuses to compile. */
  datatype ChannelError = InvalidPattern(pattern: string)

  /** The target name that every compiled pattern of the same kind accepts. */
  const MatchAll: string := "*"

  /** Whether a subscription on `channel` receives an event published to
      `target`: the kinds must agree, a pattern must have been compiled, and
      the pattern must occur somewhere in the target name unless that name
      is the match-all name. */
  function Matches(e: Regex.Engine, channel: ChannelInternal, target: MessageChannel): (r: bool)
    ensures r ==> channel.channelType == target.channelType
    ensures r ==> channel.nameRegex.Some?
    ensures r ==> target.name == MatchAll || e.finds(channel.nameRegex.value, target.name)
    ensures (&& channel.nameRegex.Some?
             && channel.channelType == target.channelType
             && (target.name == MatchAll || e.finds(channel.nameRegex.value, target.name))) ==> r
  {
    match channel.nameRegex
    case Some(pattern) =>
      channel.channelType == target.channelType
      && (e.finds(pattern, target.name) || target.name == MatchAll)
    case None => false
  }

  /** The default internal channel, before any pattern is compiled: it is a
      TOPIC channel that no target matches, whatever the engine. */
  function Default(): (r: ChannelInternal)
    ensures r.channelType == Topic
    ensures forall e: Regex.Engine, target: MessageChannel :: !Matches(e, r, target)
  {
    ChannelInternal(Topic, None)
  }

  /** Compiles the name of a public channel. An invalid pattern is refused
      here, once, and never at matching time; a valid one keeps its kind. */
  function From(e: Regex.Engine, channel: MessageChannel): (r: Result<ChannelInternal, ChannelError>)
    ensures r.Ok? <==> e.compiles(channel.name)
    ensures r.Ok? ==> r.value.channelType == channel.channelType && r.value.nameRegex == Some(channel.name)
    ensures r.Err? ==> r.error == InvalidPattern(channel.name)
  {
    if e.compiles(channel.name) then Ok(ChannelInternal(channel.channelType, Some(channel.name)))
    else Err(InvalidPattern(channel.name))
  }

  /** Whatever its pattern, a compiled channel accepts the match-all target
      name of its own kind and refuses every target of the other kind. */
  lemma CompiledChannelScope(e: Regex.Engine, channel: MessageChannel, name: string)
    requires From(e, channel).Ok?
    ensures Matches(e, From(e, channel).value, MessageChannel(channel.channelType, MatchAll))
    ensures forall t: ChannelType | t != channel.channelType ::
              !Matches(e, From(e, channel).value, MessageChannel(t, name))
  {
  }
}
