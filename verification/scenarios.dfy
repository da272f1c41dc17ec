/** Concrete runs of the in-memory broker under the literal-pattern engine,
    which agrees with a full regular-expression engine on patterns without
    special characters (all the subscription patterns used here). */
module Scenarios {
  import opened Base
  import Regex
  import opened Channel
  import opened HandlerRegistry
  import opened Dispatch

  /** The example program registers this handler twice, under one identity. */
  const OrderCreated: Handler := Handler("OrderCreatedEventHandler")
  const TopicOrder: Subscription := Subscription(OrderCreated, ChannelInternal(Topic, Some("Order")))
  const QueueOrder: Subscription := Subscription(OrderCreated, ChannelInternal(Queue, Some("Order")))

  /** The example program of the in-memory broker registers the same
      handler on a TOPIC "Order" and on a QUEUE "Order" channel. */
  lemma ExampleRegistrations()
    ensures RegisterChannel(Regex.Literal, New(), MessageChannel(Topic, "Order"), OrderCreated) == Ok([TopicOrder])
    ensures RegisterChannel(Regex.Literal, [TopicOrder], MessageChannel(Queue, "Order"), OrderCreated)
              == Ok([TopicOrder, QueueOrder])
  {
    assert Regex.IsLiteral("Order");
    assert [TopicOrder] + [QueueOrder] == [TopicOrder, QueueOrder];
  }

  /** Its emissions without a channel call both registrations in order. */
  lemma ExampleBroadcast()
    ensures Delivery(Regex.Literal, [TopicOrder, QueueOrder], None) == [0, 1]
  {
  }

  /** A TOPIC emission to "Account.*" reaches nobody: "Order" does not occur
      in that name. */
  lemma ExampleTopicMiss()
    ensures Delivery(Regex.Literal, [TopicOrder, QueueOrder], Some(MessageChannel(Topic, "Account.*"))) == []
  {
    var reg := [TopicOrder, QueueOrder];
    var target := MessageChannel(Topic, "Account.*");
    assert !Regex.Literal.finds("Order", target.name) by {
      Regex.FirstCharAbsent("Order", target.name);
    }
    assert !Matches(Regex.Literal, reg[0].channel, target);
    assert MatchingFrom(Regex.Literal, reg, target, 1) == [];
  }

  /** TOPIC emissions to "*" and to "Orders" reach the TOPIC subscription
      and never the QUEUE one. */
  lemma ExampleTopicHits()
    ensures Delivery(Regex.Literal, [TopicOrder, QueueOrder], Some(MessageChannel(Topic, "*"))) == [0]
    ensures Delivery(Regex.Literal, [TopicOrder, QueueOrder], Some(MessageChannel(Topic, "Orders"))) == [0]
  {
    var reg := [TopicOrder, QueueOrder];
    assert MatchingFrom(Regex.Literal, reg, MessageChannel(Topic, "*"), 1) == [];
    assert MatchingFrom(Regex.Literal, reg, MessageChannel(Topic, "Orders"), 1) == [];
  }

  /** A QUEUE emission to "Orders" reaches the QUEUE subscription only. */
  lemma ExampleQueueHit()
    ensures Delivery(Regex.Literal, [TopicOrder, QueueOrder], Some(MessageChannel(Queue, "Orders"))) == [1]
  {
    var reg := [TopicOrder, QueueOrder];
    var target := MessageChannel(Queue, "Orders");
    assert Regex.Literal.finds("Order", target.name) by {
      assert Regex.IsPrefix("Order", target.name);
    }
    assert MatchingFrom(Regex.Literal, reg, target, 1) == [1];
  }

  /** Its two unregister calls with the shared identity remove one
      registration each, earliest first, after which a QUEUE emission
      calls nothing. */
  lemma ExampleUnregistrations()
    ensures Unregister([TopicOrder, QueueOrder], OrderCreated) == [QueueOrder]
    ensures Unregister([QueueOrder], OrderCreated) == []
    ensures Delivery(Regex.Literal, [], Some(MessageChannel(Queue, "Orders"))) == []
  {
  }

  /** Two handlers registered one after the other on the same channel,
      under any engine: an emission that the channel matches calls only the
      first one for a QUEUE, and both, first then second, for a TOPIC. */
  lemma SameChannelTwice(e: Regex.Engine, channel: ChannelInternal, first: Handler, second: Handler,
                         target: MessageChannel)
    requires Matches(e, channel, target)
    ensures var reg := [Subscription(first, channel), Subscription(second, channel)];
            target.channelType == Queue ==> Invoked(reg, Delivery(e, reg, Some(target))) == [first]
    ensures var reg := [Subscription(first, channel), Subscription(second, channel)];
            target.channelType == Topic ==> Invoked(reg, Delivery(e, reg, Some(target))) == [first, second]
  {
    var reg := [Subscription(first, channel), Subscription(second, channel)];
    assert MatchingFrom(e, reg, target, 1) == [1];
  }
}
