# Eventure in-memory broker, modelled in Dafny

Eventure is a Rust publish/subscribe library. Its in-memory broker
(`sdk/src/in_memory/implementation.rs`) keeps an ordered registry of
subscriptions. Each subscription pairs an event handler with a channel: a kind
(TOPIC or QUEUE) and a name pattern compiled as a regular expression. The broker
dispatches each emitted event to the handlers whose channel matches the target
channel:

- without a channel, every handler is called in registration order;
- to a TOPIC channel, every matching handler is called in registration order;
- to a QUEUE channel, only the earliest matching handler is called.

Three older registries have no channels. They append handlers and broadcast
every event to all of them. These are `src/inmemory_sync.rs`,
`sdk/src/in_memory_sync.rs` and `sdk/src/in_memory_async.rs`, the last two on
the backbone of `sdk/src/macros.rs`.

The model is functional. A registry is an immutable sequence of subscriptions,
and register and unregister return a new sequence. An emission is described by
the registry positions whose handlers it calls, in call order. Positions keep
apart two registrations of one handler identity, which the example program
creates.

Files and modules:

- `base.dfy` (`Base`): `Option` and `Result`. A panic on an `unwrap` becomes `Err`.
- `regex.dfy` (`Regex`): the regular-expression engine at its boundary. An `Engine`
  holds two total functions: which pattern texts compile, and whether a pattern
  is found anywhere in a text. Every general property holds for every engine.
  `Regex.Literal` is one concrete engine, for patterns without special
  characters, and the concrete scenarios use it.
- `channel.dfy` (`Channel`): channel kinds, public and internal channels,
  compilation, and the matcher.
- `configuration.dfy` (`Configuration`): the broker configuration, `setup` and `update`.
- `registry.dfy` (`HandlerRegistry`): register, the public compiling register,
  and unregister.
- `dispatch.dfy` (`Dispatch`): `Delivery`, the reference semantics of an
  emission, and `Emit`, the source's loop with `break`, proved equal to it.
- `broadcast.dfy` (`Broadcast`): the three channel-less registries.
- `scenarios.dfy` (`Scenarios`): the example program `examples/src/in_memory/main.rs`
  replayed with the literal engine, and the "two handlers on one channel" cases.

Some model choices:

- The broker configuration is not an input of `Delivery` or `Emit`, because
  `emit` never reads it.
- Emission never changes the registry. `Delivery` and `Emit` return only
  call positions, not a registry.
- Registration never calls a handler. `Register` returns only the new
  registry, with no list of calls.
- The legacy `emit` (`Broadcast.Emit`) returns only after every call has been
  made. Nothing is deferred, in the "async" variant too.

Behaviour of the code that the model keeps:

- An emission without a channel broadcasts to every handler. It never applies
  the configured default channel.
- Only the target name `"*"` is a wildcard. A subscription pattern `"*"` is
  handed to the regex compiler like any other pattern.
- `unregister` removes only the earliest registration with the identity. A
  second `unregister` of the same identity is a no-op only if the identity was
  registered at most once. The example program registers one identity twice and
  unregisters it twice.
- A handler that panics is not isolated from the later handlers. The model
  treats handlers as total.

The legacy files `sdk/src/in_memory_sync.rs` and `sdk/src/in_memory_async.rs`
refer to model types that `sdk/src/model.rs` does not declare. They are also not
declared as modules in `sdk/src/lib.rs`. The model follows their `impl` blocks
as written.

## Model

| member | source | states |
|---|---|---|
| Channel.Matches | sdk/src/in_memory/implementation.rs:405-411 | A match requires equal kinds and a compiled pattern. Given those, it holds exactly when the target name is `"*"` or the pattern is found somewhere in the target name. |
| Channel.Default | sdk/src/in_memory/implementation.rs:391-396 | The default channel is a TOPIC channel that no target matches, under any engine. |
| Channel.From | sdk/src/in_memory/implementation.rs:398-403 | Compilation fails exactly when the engine rejects the name, with `InvalidPattern` carrying that name. Otherwise the channel keeps its kind and pattern. |
| Channel.CompiledChannelScope | sdk/src/in_memory/implementation.rs:405-408 | A compiled channel accepts the `"*"` target of its own kind, whatever its pattern, and rejects every target of the other kind. |
| Configuration.MakeConfiguration | sdk/src/in_memory/implementation.rs:88-93 | `configuration(kind, name, flag)` builds a public configuration whose channel has that kind and name and whose flag is the given one. |
| Configuration.New | sdk/src/in_memory/implementation.rs:415-420 | The initial configuration is synchronous, and its TOPIC default channel matches nothing. |
| Configuration.From | sdk/src/in_memory/implementation.rs:422-427 | Compilation fails exactly when the channel name does not compile. Otherwise it keeps the flag and the compiled channel. |
| Configuration.Update | sdk/src/in_memory/implementation.rs:429-432 | Both fields are overwritten with the new configuration's. |
| Configuration.UpdateLastWins | sdk/src/in_memory/implementation.rs:429-432 | The last update wins: the result does not depend on the earlier state, and updating twice equals updating once with the later value. |
| Configuration.Setup | sdk/src/in_memory/implementation.rs:104-107 | `setup` fails exactly on an invalid name, with `InvalidPattern` carrying that name, and then installs nothing. Otherwise it installs the given kind, pattern and flag. |
| Configuration.SetupOfConfiguration | sdk/src/in_memory/implementation.rs:88-107 | Setting up `configuration(kind, name, flag)` with a valid name gives the same result from any prior state. The installed channel accepts `"*"` of that kind and carries the flag. |
| HandlerRegistry.New | sdk/src/in_memory/implementation.rs:436-438 | A new registry is empty: no identity is registered. |
| HandlerRegistry.Register | sdk/src/in_memory/implementation.rs:442-445 | Exactly one (handler, channel) entry is added at the end, and earlier entries keep their order. |
| HandlerRegistry.RegisterChannel | sdk/src/in_memory/implementation.rs:178-182 | Public `register` fails exactly when the pattern does not compile, and then registers nothing. Otherwise it appends the handler with the compiled channel. |
| HandlerRegistry.FirstWithId | sdk/src/in_memory/implementation.rs:448-449 | It finds the earliest position whose handler has the identity, or reports that no position has it. |
| HandlerRegistry.Unregister | sdk/src/in_memory/implementation.rs:447-455 | With no entry of that identity, the registry is unchanged. Otherwise it removes exactly the earliest such entry, and all other entries keep their relative order. |
| HandlerRegistry.UnregisterCount | sdk/src/in_memory/implementation.rs:447-451 | Unregister lowers the count of its identity by one when that count is positive, and leaves every other identity's count unchanged. |
| HandlerRegistry.UnregisterTwiceWhenUnique | sdk/src/in_memory/implementation.rs:447-451 | For an identity registered at most once, unregister removes it entirely, and a second unregister is a no-op. |
| HandlerRegistry.UnregisterUndoesRegister | sdk/src/in_memory/implementation.rs:442-451 | Registering a fresh identity and then unregistering it gives back the original registry. |
| Dispatch.MatchingFrom | sdk/src/in_memory/implementation.rs:461-465 | It returns, in increasing order, exactly the positions from `i` on whose channel matches the target. |
| Dispatch.Delivery | sdk/src/in_memory/implementation.rs:457-483 | Calls go in registration order, with no repeats. Without a channel: every position once. TOPIC: exactly the matching positions. QUEUE: the earliest matching position, or nothing if none matches. |
| Dispatch.Emit | sdk/src/in_memory/implementation.rs:457-483 | The `emit` loop calls exactly the positions that `Delivery` specifies. |
| Dispatch.EmitToAll | sdk/src/in_memory/implementation.rs:476-481 | Without a channel, every registration is called once, in order, whatever its channel. |
| Dispatch.EmitToChannel | sdk/src/in_memory/implementation.rs:460-475 | The scan with `break` calls all matches for a TOPIC target, and only the first match for a QUEUE target. |
| Dispatch.DeliveryAfterRegister | sdk/src/in_memory/implementation.rs:442-483 | A later registration changes an emission only at its end. With no channel it is called last. On TOPIC it is called last if it matches. On QUEUE it is called only if it matches and no earlier entry did. |
| Dispatch.UnregisteredHandlerNeverCalled | sdk/src/in_memory/implementation.rs:447-483 | Once an identity registered at most once is unregistered, no emission calls a handler with that identity. |
| Dispatch.KindMismatchCallsNothing | sdk/src/in_memory/implementation.rs:405-411 | If every subscription has the other kind, an emission to the target calls nothing, whatever the names. |
| Dispatch.MatchAllTargetReachesKind | sdk/src/in_memory/implementation.rs:407-408 | A TOPIC `"*"` emission calls exactly the compiled TOPIC subscriptions. A QUEUE `"*"` emission calls one handler if any compiled QUEUE subscription exists. |
| Broadcast.New | sdk/src/macros.rs:13-17 | A registry created through the backbone is empty (and likewise at src/inmemory_sync.rs:10-14). |
| Broadcast.Register | src/inmemory_sync.rs:17-20 | The handler is appended at the end, and earlier handlers keep their order (the same append is at sdk/src/in_memory_async.rs:6-9). |
| Broadcast.RegisterOnChannel | sdk/src/in_memory_sync.rs:6-9 | The handler is appended at the end, and earlier handlers keep their order. |
| Broadcast.RegisterIgnoresChannel | sdk/src/in_memory_sync.rs:6-9 | The channel argument has no effect: the result equals the channel-less `Register`. |
| Broadcast.RegisterAllAppends | src/inmemory_sync.rs:16-20 | A series of registrations appends the handlers in call order. |
| Broadcast.RegistrationsInOrder | src/inmemory_sync.rs:6-28 | Nothing removes handlers. So a registry built by registrations holds exactly those handlers in call order, and its length is the number of calls. |
| Broadcast.Emit | sdk/src/in_memory_async.rs:11-16 | Every handler is called once, in registration order, and all calls finish before `emit` returns. The same loop is at src/inmemory_sync.rs:22-27 and sdk/src/in_memory_sync.rs:11-16. |
| Scenarios.ExampleRegistrations | examples/src/in_memory/main.rs:27-33 | The example registers one handler identity on TOPIC "Order" and then on QUEUE "Order". |
| Scenarios.ExampleBroadcast | examples/src/in_memory/main.rs:35-36 | An emission without a channel calls both registrations, in order. |
| Scenarios.ExampleTopicMiss | examples/src/in_memory/main.rs:37 | TOPIC "Account.*" reaches nobody. |
| Scenarios.ExampleTopicHits | examples/src/in_memory/main.rs:38-39 | TOPIC "*" and TOPIC "Orders" reach only the TOPIC subscription. |
| Scenarios.ExampleQueueHit | examples/src/in_memory/main.rs:40 | QUEUE "Orders" reaches only the QUEUE subscription. |
| Scenarios.ExampleUnregistrations | examples/src/in_memory/main.rs:42-47 | Each unregister removes one registration, earliest first. Afterwards QUEUE "Orders" calls nothing. |
| Scenarios.SameChannelTwice | sdk/src/in_memory/implementation.rs:461-470 | Two handlers on one matching channel: a QUEUE emission calls only the first, and a TOPIC emission calls both, first then second. |

## Left out

- The `Mutex` statics, lock poisoning and the lock held during handler calls (sdk/src/in_memory/implementation.rs:301, 343, 350-351). The model is sequential: the registry and the configuration are plain values. One consequence goes unmodelled. The public `register` and `setup` take the lock before compiling the pattern, so an invalid pattern panics while the lock is held.
- The internals of the regular-expression engine. Compilation and unanchored search are the two functions of an `Engine`. `Regex.Literal` agrees with the real engine only on patterns without special characters.
- The handler's `handle` body, `as_any` downcasting, `mopa`, `typetag` and serde (sdk/src/model.rs). A handler is its identity, and a call to it is its position in the result of an emission.
- Events. The core never inspects an event: it only passes the event to the handlers it calls. So the model has no event parameter.
- The `is_async` flag's effect. It is stored and replaced by `setup`, but nothing reads it.
- `Display` impls, `info!`/`debug!`/`println!` logging: output only.
- The public `unregister`, `emit` and `emit_to_channel` wrappers (sdk/src/in_memory/implementation.rs:257-259, 300-302, 342-344). Each only takes the lock and delegates, to `Unregister`, to `Emit` without a channel, and to `Emit` with one.
- The Kafka and Iggy adapters, the examples other than `examples/src/in_memory/main.rs`, `tests/` and `src/main.rs`. They are stubs or demo programs.
