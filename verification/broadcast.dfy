/** The older channel-less registries: src/inmemory_sync.rs, and the
    sdk/src/in_memory_sync.rs and sdk/src/in_memory_async.rs variants built
    on the backbone of sdk/src/macros.rs. Each keeps a plain list of
    handlers, appends on registration, and on emission calls every handler
    once, in registration order, before returning. Handlers are opaque: an
    emission is described by the handlers it calls, in call order. */
module Broadcast {

  /** A fresh registry holds no handler. */
  function New<H>(): (r: seq<H>)
    ensures |r| == 0
  {
    []
  }

  /** Appends `handler`; the handlers already registered keep their order. */
  function Register<H>(handlers: seq<H>, handler: H): (r: seq<H>)
    ensures |r| == |handlers| + 1
    ensures r[..|handlers|] == handlers
    ensures r[|handlers|] == handler
  {
    handlers + [handler]
  }

  /** The variant whose `register` also receives a channel: the channel is
      discarded and only the handler is appended. */
  function RegisterOnChannel<H, C>(handlers: seq<H>, channel: C, handler: H): (r: seq<H>)
    ensures |r| == |handlers| + 1
    ensures r[..|handlers|] == handlers
    ensures r[|handlers|] == handler
  {
    Register(handlers, handler)
  }

  /** The channel given to `RegisterOnChannel` has no effect at all. */
  lemma RegisterIgnoresChannel<H, C>(handlers: seq<H>, c1: C, c2: C, handler: H)
    ensures RegisterOnChannel(handlers, c1, handler) == RegisterOnChannel(handlers, c2, handler)
    ensures RegisterOnChannel(handlers, c1, handler) == Register(handlers, handler)
  {
  }

  /** Registers each of `xs` in turn. */
  function RegisterAll<H>(handlers: seq<H>, xs: seq<H>): seq<H>
    decreases |xs|
  {
    if |xs| == 0 then handlers else RegisterAll(Register(handlers, xs[0]), xs[1..])
  }

  /** Registering a series of handlers into an existing registry appends
      them in the order of the calls. */
  lemma {:induction false} RegisterAllAppends<H>(handlers: seq<H>, xs: seq<H>)
    ensures RegisterAll(handlers, xs) == handlers + xs
    decreases |xs|
  {
    if |xs| > 0 {
      RegisterAllAppends(Register(handlers, xs[0]), xs[1..]);
      assert handlers + [xs[0]] + xs[1..] == handlers + xs;
    }
  }

  /** Since nothing removes handlers, a registry built by a series of
      registrations is exactly those handlers, in call order; its length is
      the number of calls. */
  lemma RegistrationsInOrder<H>(xs: seq<H>)
    ensures RegisterAll(New(), xs) == xs
    ensures |RegisterAll(New(), xs)| == |xs|
  {
    RegisterAllAppends(New(), xs);
  }

  /** `emit`: calls every registered handler once, in registration order,
      and has finished all calls when it returns. The list of handlers is
      only read. */
  method Emit<H>(handlers: seq<H>) returns (calls: seq<H>)
    ensures |calls| == |handlers|
    ensures forall k | 0 <= k < |calls| :: calls[k] == handlers[k]
  {
    calls := [];
    for i := 0 to |handlers|
      invariant |calls| == i
      invariant forall k | 0 <= k < i :: calls[k] == handlers[k]
    {
      calls := calls + [handlers[i]];
    }
  }
}
