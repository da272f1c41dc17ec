/** The ordered registry of (handler, channel) subscriptions of the
    in-memory broker (sdk/src/in_memory/implementation.rs). */
module HandlerRegistry {
  import opened Base
  import Regex
  import opened Channel

  /** A handler, seen by the registry only through its identity. */
  datatype Handler = Handler(id: string)

  /** One registration: the handler and the compiled channel it listens on. */
  datatype Subscription = Subscription(handler: Handler, channel: ChannelInternal)

  /** Registrations in registration order. */
  type Registry = seq<Subscription>

  /** How many registrations carry a handler with identity `id`. */
  function CountId(reg: Registry, id: string): nat
    decreases |reg|
  {
    if |reg| == 0 then 0
    else (if reg[0].handler.id == id then 1 else 0) + CountId(reg[1..], id)
  }

  /** A fresh registry holds no registration. */
  function New(): (r: Registry)
    ensures forall id :: CountId(r, id) == 0
    ensures |r| == 0
  {
    []
  }

  /** Appends one registration at the end; earlier ones keep their places. */
  function Register(reg: Registry, channel: ChannelInternal, handler: Handler): (r: Registry)
    ensures |r| == |reg| + 1
    ensures r[..|reg|] == reg
    ensures r[|reg|] == Subscription(handler, channel)
  {
    reg + [Subscription(handler, channel)]
  }

  /** The public `register`: compiles the channel name first, and registers
      nothing if it is not a valid pattern. */
  function RegisterChannel(e: Regex.Engine, reg: Registry, channel: MessageChannel, handler: Handler)
    : (r: Result<Registry, ChannelError>)
    ensures r.Err? <==> !e.compiles(channel.name)
    ensures r.Err? ==> r.error == InvalidPattern(channel.name)
    ensures r.Ok? ==> && |r.value| == |reg| + 1
                      && r.value[..|reg|] == reg
                      && r.value[|reg|].handler == handler
                      && r.value[|reg|].channel.channelType == channel.channelType
                      && r.value[|reg|].channel.nameRegex == Some(channel.name)
  {
    match Channel.From(e, channel)
    case Ok(compiled) => Ok(Register(reg, compiled, handler))
    case Err(error) => Err(error)
  }

  /** The earliest position holding a handler with identity `id`, if any. */
  function FirstWithId(reg: Registry, id: string): (r: Option<nat>)
    ensures r.Some? ==> && r.value < |reg|
                        && reg[r.value].handler.id == id
                        && forall j | 0 <= j < r.value :: reg[j].handler.id != id
    ensures r.None? ==> forall j | 0 <= j < |reg| :: reg[j].handler.id != id
    decreases |reg|
  {
    if |reg| == 0 then None
    else if reg[0].handler.id == id then Some(0)
    else match FirstWithId(reg[1..], id)
      case Some(k) => Some(k + 1)
      case None => None
  }

  /** Removes the earliest registration whose handler has the identity of
      `handler`; without such a registration the registry is unchanged. */
  function Unregister(reg: Registry, handler: Handler): (r: Registry)
    ensures (forall j | 0 <= j < |reg| :: reg[j].handler.id != handler.id) ==> r == reg
    ensures (exists j | 0 <= j < |reg| :: reg[j].handler.id == handler.id) ==>
              && |r| == |reg| - 1
              && exists i | 0 <= i < |reg| ::
                   && reg[i].handler.id == handler.id
                   && (forall j | 0 <= j < i :: reg[j].handler.id != handler.id)
                   && r == reg[..i] + reg[i + 1..]
  {
    match FirstWithId(reg, handler.id)
    case Some(i) => reg[..i] + reg[i + 1..]
    case None => reg
  }

  lemma {:induction false} CountIdAppend(a: Registry, b: Registry, id: string)
    ensures CountId(a + b, id) == CountId(a, id) + CountId(b, id)
    decreases |a|
  {
    if |a| == 0 {
      assert a + b == b;
    } else {
      assert (a + b)[1..] == a[1..] + b;
      CountIdAppend(a[1..], b, id);
    }
  }

  lemma {:induction false} CountIdZero(reg: Registry, id: string)
    ensures CountId(reg, id) == 0 <==> forall j | 0 <= j < |reg| :: reg[j].handler.id != id
    decreases |reg|
  {
    if |reg| > 0 {
      CountIdZero(reg[1..], id);
      assert forall j | 1 <= j < |reg| :: reg[j] == reg[1..][j - 1];
    }
  }

  /** Unregistering lowers the number of registrations with that identity
      by exactly one when there is one, and leaves the count of every other
      identity unchanged. */
  lemma {:induction false} UnregisterCount(reg: Registry, handler: Handler, id: string)
    ensures CountId(Unregister(reg, handler), id) ==
              if id == handler.id && CountId(reg, id) > 0 then CountId(reg, id) - 1 else CountId(reg, id)
  {
    match FirstWithId(reg, handler.id)
    case None =>
      CountIdZero(reg, handler.id);
    case Some(i) =>
      assert reg == reg[..i] + ([reg[i]] + reg[i + 1..]);
      CountIdAppend(reg[..i], [reg[i]] + reg[i + 1..], id);
      CountIdAppend([reg[i]], reg[i + 1..], id);
      CountIdAppend(reg[..i], reg[i + 1..], id);
      assert [reg[i]][1..] == [];
      CountIdZero(reg[..i], handler.id);
  }

  /** Unregistering a handler whose identity is registered at most once
      removes it entirely, so a second unregister changes nothing. */
  lemma UnregisterTwiceWhenUnique(reg: Registry, handler: Handler)
    requires CountId(reg, handler.id) <= 1
    ensures CountId(Unregister(reg, handler), handler.id) == 0
    ensures Unregister(Unregister(reg, handler), handler) == Unregister(reg, handler)
  {
    UnregisterCount(reg, handler, handler.id);
    CountIdZero(Unregister(reg, handler), handler.id);
  }

  /** Registering a handler whose identity is not yet registered and then
      unregistering it restores the registry. */
  lemma UnregisterUndoesRegister(reg: Registry, channel: ChannelInternal, handler: Handler)
    requires forall j | 0 <= j < |reg| :: reg[j].handler.id != handler.id
    ensures Unregister(Register(reg, channel, handler), handler) == reg
  {
  }
}
