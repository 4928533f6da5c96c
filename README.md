# Publish/subscribe hub: subscriber registry

This project models the core of a single-topic websocket publish/subscribe hub. It
covers the server's registry of subscribers: how a subscriber is created and
registered, how a disconnected subscriber is marked, and how a broadcast hands a
message to every connected subscriber while it compacts the registry in place.

- `server.dfy` (module `PubSub`) holds the model.
  - A `Channel` is the subscriber's unbuffered `chan string`. It is an object with a
    closed flag and the log of every message handed over on it.
  - Sending on a closed channel panics, and so does closing one twice. Both are
    preconditions of `Send` and `Close`, so the verifier proves that the hub never
    does either.
  - A `Subscriber` has its `closed` flag and owns its channel.
  - The `Server` class holds the registry as a sequence field.
  - `Live` is the specification of a compaction pass: the open entries, in their
    original order.
  - `DeliverAndCompact` is the source's loop. It keeps the explicit write index `h`,
    and it is proved to leave exactly `Live` of the old registry. It sends to each
    open subscriber exactly once and sends nothing to closed ones.
- `scenarios.dfy` (module `ServerScenarios`) holds client-side runs:
  - a run of broadcasts to a registry of connected subscribers;
  - the end-to-end scenario of the test file: one subscriber, ten messages, an abrupt
    disconnect, then "last";
  - a broadcast with nobody subscribed;
  - a broadcast after one of two subscribers has gone.

The registry invariant `Server.Valid` says two things:
- no two entries share a channel, so no subscriber is tracked twice;
- an entry's channel is closed exactly when its `closed` flag is set.

The second holds because the reader pump changes both together, under the lock.

## Model

| member | source | states |
|---|---|---|
| PubSub.Channel.constructor | server.go:50 | a new channel is open and nothing has been sent on it |
| PubSub.Channel.Send | server.go:107 | a send needs an open channel and appends exactly that message to the channel's log |
| PubSub.Channel.Close | server.go:68 | closing needs an open channel, leaves it closed and keeps its log |
| PubSub.Subscriber.constructor | server.go:50-51 | a new subscriber is not closed and owns a fresh, open, empty channel |
| PubSub.Live | server.go:103-111 | a compaction pass never makes the registry longer |
| PubSub.LiveMembers | server.go:104-109 | a subscriber survives compaction if and only if it was tracked and is not closed |
| PubSub.LiveIsSubsequence | server.go:104-111 | the survivors keep their relative order: the result is a subsequence of the old registry |
| PubSub.LiveKeepsAllIff | server.go:104-111 | compaction removes nothing if and only if no tracked subscriber is closed |
| PubSub.LiveIdempotent | server.go:103-111 | compacting an already compacted registry changes nothing |
| PubSub.LiveConcat | server.go:104-110 | the pass treats each entry on its own: filtering distributes over concatenation |
| PubSub.LiveOwnsChannels | server.go:111 | the compacted registry still has no two entries sharing a channel |
| PubSub.LiveChannelsNotClosed | server.go:105-107 | no survivor of compaction shares its channel with a closed entry, so the sends of the pass never reach a closed channel |
| PubSub.Server.constructor | server.go:27-34 | a new server has an empty registry that satisfies the invariant |
| PubSub.Server.AddSubscriber | server.go:36-42 | the subscriber is appended at the end, earlier entries and their order are unchanged, the result is always success, and the invariant is kept |
| PubSub.Server.Subscribe | server.go:50-52 | a fresh open subscriber with a fresh empty channel is appended to the registry |
| PubSub.Server.Disconnect | server.go:66-69 | the flag goes from open to closed and the channel is closed, its log and the registry are unchanged, and the subscriber is still registered |
| PubSub.Server.Broadcast | server.go:95-111 | an empty message is rejected and changes nothing. Otherwise the registry becomes the open subscribers in their old order, each open subscriber's log gains the message exactly once, closed subscribers' logs are unchanged, and no channel is opened or closed |
| PubSub.Server.DeliverAndCompact | server.go:100-111 | the in-place pass with write index h, which never passes the read index, leaves exactly `Live` of the old registry and appends the message once to each open entry's channel and to no other |
| ServerScenarios.Published | server.go:96-99 | the messages a run of broadcasts delivers are at most as many as were sent, and none of them is empty |
| ServerScenarios.PublishedAll | server.go:96-99 | a run of non-empty messages is delivered in full and in order |
| ServerScenarios.PublishedNoneIff | server.go:96-99 | a run delivers nothing if and only if every message in it is empty |
| ServerScenarios.BroadcastToConnected | server.go:95-111 | one broadcast to a registry of connected subscribers keeps every entry and gives each the message, unless it is empty |
| ServerScenarios.BroadcastEach | server_test.go:97-101 | broadcasting m1..mN to connected subscribers keeps the registry and gives every subscriber exactly the non-empty messages among m1..mN, in order |
| ServerScenarios.BroadcastReaches | server.go:95-111 | one broadcast to any registry keeps a connected subscriber registered, gives it the message unless it is empty, and touches no channel outside the old registry |
| ServerScenarios.BroadcastEachReaches | server_test.go:97-101 | broadcasting m1..mN to any registry, even one that still tracks disconnected subscribers, keeps every connected subscriber registered and gives it exactly the non-empty messages among m1..mN, in order |
| ServerScenarios.SingleSubscriberScenario | server_test.go:97-116 | after ten broadcasts the one subscriber is registered and has been handed exactly "Message #1" to "Message #10". After its connection breaks and "last" is broadcast, the registry is empty and the subscriber never got "last" |
| ServerScenarios.NoSubscribersScenario | server.go:95-111 | a broadcast with nobody subscribed succeeds unless the message is empty, and the registry stays empty |
| ServerScenarios.TwoSubscribersScenario | server.go:103-111 | with one of two subscribers disconnected, a non-empty broadcast reaches only the connected one and leaves one entry. An empty broadcast reaches nobody and leaves both entries |

## Left out

- The mutex and the goroutines are not modelled. Every registry operation runs under the one lock, so each is modelled as an atomic method.
- Channel blocking is not modelled. A send on the unbuffered channel is modelled as appending to the channel's log, and the receiving side is not modelled.
- The writer pump (server.go:75-86) is left out. So is its write failure. That failure ends the pump without setting `closed`. The handler's deferred `c.Close()` (server.go:58) then makes the reader pump's `ReadMessage` fail (server.go:63-64), and the disconnect block runs and sets `closed`, unless a broadcast takes the lock first. That broadcast then blocks forever on the send at server.go:107, which no one receives, while it holds the lock, and the hub deadlocks. The same race can follow an ordinary client disconnect. The model cannot show this, because it leaves out channel blocking; `Disconnect` models the disconnect block for the case where it does run.
- HTTP is left out:
  - the websocket upgrade and its failure (server.go:45-49);
  - form parsing and its failure (server.go:90-94);
  - reading the `msg` form field;
  - `Run`, the mux, `main` and all logging.
- The `conn` field of the subscriber record is not modelled; it is used only for I/O and logging.
- The error branch after `addSubscriber` (server.go:53-56) cannot be taken, because `addSubscriber` always returns nil. `AddSubscriber` returns `ok == true`.
- The broadcast handler returns nothing to its caller. The model returns an `Outcome` (`Delivered` or `EmptyMessage`) that tells the two branches of server.go:96-99 apart.
- The compaction loop works on a local copy of the slice. It reads entry i and writes back at index h of that copy, and assigns the field once at the end. Go's `range` reads the same backing array that `s.subscribers[h] = sub` writes. The field's intermediate states cannot be observed under the lock.
- `AddSubscriber` requires an open subscriber whose channel is not already registered. Its only caller creates the subscriber just before it registers it (server.go:50-52).
- `Disconnect` requires the subscriber to be registered and open. The reader pump starts only after registration and runs the block once. A subscriber leaves the registry only once it is closed.
- ServerScenarios.BroadcastEach covers only registries whose subscribers are all connected, as in server_test.go:97-101, and then states that the registry is unchanged. For any registry, ServerScenarios.BroadcastEachReaches states the delivery to each connected subscriber, and PubSub.Server.Broadcast states per call that closed entries are dropped on the first non-empty broadcast.
- server_test.go is not modelled as a file, because it calls a `createMux` method that the server does not have. Its sequence of steps is modelled by ServerScenarios.SingleSubscriberScenario.
