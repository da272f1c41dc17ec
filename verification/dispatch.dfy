/** The dispatcher of the in-memory broker: which registered handlers an
    `emit` calls, and in which order (sdk/src/in_memory/implementation.rs).
    An emission is described by the registry positions whose handlers are
    called, in call order; positions keep two registrations of the same
    handler apart. The broker configuration is not an input: emitting
    never reads it. */
module Dispatch {
  import opened Base
  import Regex
  import opened Channel
  import opened HandlerRegistry

  /** Strictly increasing, so registration order and no repeats. */
  predicate Increasing(s: seq<nat>) {
    forall a, b | 0 <= a < b < |s| :: s[a] < s[b]
  }

  /** Every position names a registration. */
  predicate InRange(reg: Registry, s: seq<nat>) {
    forall k | 0 <= k < |s| :: s[k] < |reg|
  }

  /** The handlers called, in call order. */
  function Invoked(reg: Registry, calls: seq<nat>): (hs: seq<Handler>)
    requires InRange(reg, calls)
    ensures |hs| == |calls|
  {
    seq(|calls|, k requires 0 <= k < |calls| => reg[calls[k]].handler)
  }

  /** The positions from `i` on whose channel matches `target`, in order. */
  function MatchingFrom(e: Regex.Engine, reg: Registry, target: MessageChannel, i: nat): (r: seq<nat>)
    requires i <= |reg|
    ensures forall k | 0 <= k < |r| :: i <= r[k] < |reg| && Matches(e, reg[r[k]].channel, target)
    ensures forall j | i <= j < |reg| && Matches(e, reg[j].channel, target) :: j in r
    ensures Increasing(r)
    decreases |reg| - i
  {
    if i == |reg| then []
    else if Matches(e, reg[i].channel, target) then [i] + MatchingFrom(e, reg, target, i + 1)
    else MatchingFrom(e, reg, target, i + 1)
  }

  /** One step of the scan at position `i`: the positions already called,
      followed by those still to be selected, stay the same whether or not
      `i` matches. */
  lemma MatchingFromStep(e: Regex.Engine, reg: Registry, target: MessageChannel, i: nat, calls: seq<nat>)
    requires i < |reg|
    ensures Matches(e, reg[i].channel, target) ==>
              (calls + [i]) + MatchingFrom(e, reg, target, i + 1) == calls + MatchingFrom(e, reg, target, i)
    ensures Matches(e, reg[i].channel, target) ==> FirstOnly(MatchingFrom(e, reg, target, i)) == [i]
    ensures !Matches(e, reg[i].channel, target) ==> MatchingFrom(e, reg, target, i + 1) == MatchingFrom(e, reg, target, i)
  {
  }

  /** The first element only, if there is one. */
  function FirstOnly(s: seq<nat>): seq<nat> {
    if |s| == 0 then [] else [s[0]]
  }

  /** Which positions an emission calls: without a channel every
      registration in order; to a TOPIC channel every matching registration
      in order; to a QUEUE channel only the earliest matching one. */
  function Delivery(e: Regex.Engine, reg: Registry, channelOption: Option<MessageChannel>): (r: seq<nat>)
    ensures InRange(reg, r) && Increasing(r)
    ensures channelOption.None? ==> |r| == |reg| && forall k | 0 <= k < |r| :: r[k] == k
    ensures channelOption.Some? ==> forall k | 0 <= k < |r| :: Matches(e, reg[r[k]].channel, channelOption.value)
    ensures channelOption.Some? && channelOption.value.channelType == Topic ==>
              forall j: nat :: (j in r) <==> (j < |reg| && Matches(e, reg[j].channel, channelOption.value))
    ensures channelOption.Some? && channelOption.value.channelType == Queue ==>
              && |r| <= 1
              && (|r| == 1 ==> && Matches(e, reg[r[0]].channel, channelOption.value)
                               && forall j | 0 <= j < r[0] :: !Matches(e, reg[j].channel, channelOption.value))
              && (|r| == 0 ==> forall j | 0 <= j < |reg| :: !Matches(e, reg[j].channel, channelOption.value))
  {
    match channelOption
    case None => seq(|reg|, k => k)
    case Some(target) =>
      var matching := MatchingFrom(e, reg, target, 0);
      if target.channelType == Queue then FirstOnly(matching) else matching
  }

  /** `emit` as written: without a channel it calls every registration's
      handler, and with one it scans for matches. It computes exactly
      `Delivery`. */
  method Emit(e: Regex.Engine, reg: Registry, channelOption: Option<MessageChannel>) returns (calls: seq<nat>)
    ensures calls == Delivery(e, reg, channelOption)
  {
    match channelOption {
      case Some(target) =>
        calls := EmitToChannel(e, reg, target);
      case None =>
        calls := EmitToAll(reg);
    }
  }

  /** The branch without a channel: every handler, in registration order. */
  method EmitToAll(reg: Registry) returns (calls: seq<nat>)
    ensures |calls| == |reg|
    ensures forall k | 0 <= k < |calls| :: calls[k] == k
  {
    calls := [];
    for i := 0 to |reg|
      invariant |calls| == i
      invariant forall k | 0 <= k < i :: calls[k] == k
    {
      calls := calls + [i];
    }
  }

  /** The branch with a channel: scans the registrations in order, calls the
      handler of each one that matches, and stops after the first call when
      the target is a QUEUE. */
  method EmitToChannel(e: Regex.Engine, reg: Registry, target: MessageChannel) returns (calls: seq<nat>)
    ensures target.channelType == Topic ==> calls == MatchingFrom(e, reg, target, 0)
    ensures target.channelType == Queue ==> calls == FirstOnly(MatchingFrom(e, reg, target, 0))
  {
    calls := [];
    var i := 0;
    while i < |reg|
      invariant 0 <= i <= |reg|
      invariant calls + MatchingFrom(e, reg, target, i) == MatchingFrom(e, reg, target, 0)
      invariant target.channelType == Queue ==> calls == []
    {
      MatchingFromStep(e, reg, target, i, calls);
      if Matches(e, reg[i].channel, target) {
        calls := calls + [i];
        if target.channelType == Queue {
          break;
        }
      }
      i := i + 1;
    }
  }

  lemma {:induction false} MatchingFromAppend(e: Regex.Engine, reg: Registry, s: Subscription, target: MessageChannel, i: nat)
    requires i <= |reg|
    ensures MatchingFrom(e, reg + [s], target, i) ==
              MatchingFrom(e, reg, target, i) + (if Matches(e, s.channel, target) then [|reg|] else [])
    decreases |reg| - i
  {
    var ext := reg + [s];
    if i == |reg| {
      assert MatchingFrom(e, ext, target, i + 1) == [];
    } else {
      assert ext[i] == reg[i];
      MatchingFromAppend(e, reg, s, target, i + 1);
    }
  }

  /** A registration added later changes an emission only at its end:
      without a channel the new handler is called last; to a TOPIC channel
      it is called last if it matches; to a QUEUE channel it is called only
      if it matches and no earlier registration did. */
  lemma DeliveryAfterRegister(e: Regex.Engine, reg: Registry, channel: ChannelInternal, handler: Handler,
                              channelOption: Option<MessageChannel>)
    ensures channelOption.None? ==>
              Delivery(e, Register(reg, channel, handler), channelOption) == Delivery(e, reg, channelOption) + [|reg|]
    ensures channelOption.Some? && channelOption.value.channelType == Topic ==>
              Delivery(e, Register(reg, channel, handler), channelOption) ==
                Delivery(e, reg, channelOption) + (if Matches(e, channel, channelOption.value) then [|reg|] else [])
    ensures channelOption.Some? && channelOption.value.channelType == Queue ==>
              Delivery(e, Register(reg, channel, handler), channelOption) ==
                if Delivery(e, reg, channelOption) == [] && Matches(e, channel, channelOption.value) then [|reg|]
                else Delivery(e, reg, channelOption)
  {
    var ext := Register(reg, channel, handler);
    match channelOption
    case None =>
      assert Delivery(e, ext, channelOption) == Delivery(e, reg, channelOption) + [|reg|];
    case Some(target) =>
      MatchingFromAppend(e, reg, Subscription(handler, channel), target, 0);
  }

  /** Once a handler registered at most once has been unregistered, no
      emission calls a handler with its identity. */
  lemma UnregisteredHandlerNeverCalled(e: Regex.Engine, reg: Registry, handler: Handler,
                                       channelOption: Option<MessageChannel>)
    requires CountId(reg, handler.id) <= 1
    ensures var after := Unregister(reg, handler);
            forall h | h in Invoked(after, Delivery(e, after, channelOption)) :: h.id != handler.id
  {
    var after := Unregister(reg, handler);
    UnregisterTwiceWhenUnique(reg, handler);
    CountIdZero(after, handler.id);
  }

  /** A subscription of the other kind never receives the event, whatever
      the names; so an emission to a kind nobody subscribed to calls nothing. */
  lemma KindMismatchCallsNothing(e: Regex.Engine, reg: Registry, target: MessageChannel)
    requires forall j | 0 <= j < |reg| :: reg[j].channel.channelType != target.channelType
    ensures Delivery(e, reg, Some(target)) == []
  {
    var r := Delivery(e, reg, Some(target));
    assert |r| > 0 ==> !Matches(e, reg[r[0]].channel, target);
  }

  /** An emission to the match-all name "*" reaches every compiled
      subscription of the same kind, whatever its pattern and the engine:
      all of them for a TOPIC, the earliest for a QUEUE. */
  lemma MatchAllTargetReachesKind(e: Regex.Engine, reg: Registry)
    ensures forall j: nat :: (j in Delivery(e, reg, Some(MessageChannel(Topic, MatchAll)))) <==>
              (j < |reg| && reg[j].channel.channelType == Topic && reg[j].channel.nameRegex.Some?)
    ensures forall j | 0 <= j < |reg| :: reg[j].channel.channelType == Queue && reg[j].channel.nameRegex.Some? ==>
              |Delivery(e, reg, Some(MessageChannel(Queue, MatchAll)))| == 1
  {
  }
}
