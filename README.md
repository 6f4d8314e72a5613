# relay-auth subscriptions: a verified model of `createSubscribe`

`createSubscribe(options)` builds a Relay subscribe function backed by a
socket.io transport. Its closure holds an id counter, an insertion-ordered
registry of live subscriptions (`Map` from id to `{sink, query, variables}`)
and the socket. This project models that closure. It has two layers.

- **The state machine** (`SubscriptionSession`, on values). The whole
  closure state is one `State`. Every handler is a transition function:
  - `Connected` for the `connect` handler;
  - `Updated` for the `subscription update` handler;
  - `Activated` for subscribing to the returned observable;
  - `Cancelled` for the teardown it returns;
  - `Closed` for `close`;
  - `Disconnected` for the transport dropping.
  - `Step`/`Run` replay any sequence of these events.
  - The invariant `Consistent` is preserved by every event:
    - the order lists exactly the live ids, increasing;
    - the registry never exceeds its capacity;
    - every live id has a sink log, every log belongs to an issued id, and
      no log goes on after completing.
  - The properties the code promises are lemmas over the transitions.
- **The object** (`CreateSubscribe.Session`, imperative). The same state
  lives in fields that the handlers update in place. The two `forEach` loops
  are `while` loops with invariants. Each method is proved to leave the
  object in exactly the state the matching transition computes, and to keep
  `Valid()`. So every lemma about the state machine holds of the object.

The supporting modules:
- `Protocol`: JSON values, the notices sent, token truthiness, and stripping
  `id` from an update.
- `Sinks`: a sink as the log its observer sees. Values are ignored once the
  sink has completed.
- `Registry`: insertion order, routing an update to its record, and the
  `subscribe` replay.
- `Scenarios`: the repository's tests, and a few more, as lemmas about
  concrete runs from a fresh session.

The transport is reduced to three things:
- its `connected` flag;
- explicit connect and disconnect events;
- `outbox`, the log of notices actually sent.

## Model

| member | source | states |
|---|---|---|
| SubscriptionSession.Init | src/createSubscribe.ts:26-32 | the session keeps the token as given, takes capacity `maxSubscriptions` defaulting to 200, starts its counter at 0 with an empty registry, an empty outbox and no sinks, not connected |
| SubscriptionSession.InitConsistent | src/createSubscribe.ts:31-32 | a fresh session (counter 0, empty registry) satisfies the registry and sink invariant |
| SubscriptionSession.StepConsistent | src/createSubscribe.ts:60-114 | every handler (connect, disconnect, update, activation, teardown, close) preserves the invariant |
| SubscriptionSession.RunConsistent | src/createSubscribe.ts:60-114 | every state reachable by any sequence of events satisfies the invariant |
| SubscriptionSession.UpdatedConsistent | src/createSubscribe.ts:70-77 | an update preserves the invariant |
| SubscriptionSession.ActivatedConsistent | src/createSubscribe.ts:80-98 | an activation, accepted or refused, preserves the invariant |
| SubscriptionSession.CancelledConsistent | src/createSubscribe.ts:100-103 | a teardown preserves the invariant |
| SubscriptionSession.ClosedConsistent | src/createSubscribe.ts:108-114 | `close` preserves the invariant |
| SubscriptionSession.RegisteredInsert | src/createSubscribe.ts:97 | inserting a record under the next id below capacity keeps order increasing, order and keys in step, size within capacity, and every sink log well formed |
| SubscriptionSession.RegisteredRemove | src/createSubscribe.ts:102 | deleting an id, live or not, keeps the registry invariant |
| SubscriptionSession.RegistrySize | src/createSubscribe.ts:83 | the registry's `size` equals the length of the insertion order and never exceeds the capacity |
| SubscriptionSession.ActivationTakesId | src/createSubscribe.ts:81 | every activation takes the current counter value and increments it; that id was never used before; its sink starts empty |
| SubscriptionSession.ActivationCapacity | src/createSubscribe.ts:83-89 | an activation is accepted iff `size < max`; a refused one leaves registry, order and outbox unchanged; size stays within `max` |
| SubscriptionSession.ActivationAccepted | src/createSubscribe.ts:91-98 | an accepted activation stores `{query, variables}` under its id, last in order, and no other record; it emits exactly `subscribe {id, query, variables}` iff connected; updates for that id are then routed to it |
| SubscriptionSession.ConnectAnnounces | src/createSubscribe.ts:61-69 | connect sets the flag, then sends `authenticate token` only for a non-empty token, then the `subscribe` of every live record in insertion order; nothing else changes |
| SubscriptionSession.ConnectSends | src/createSubscribe.ts:61-69 | what one connect adds to the outbox is exactly the optional `authenticate` followed by the replay |
| SubscriptionSession.ConnectReplaysEachOnce | src/createSubscribe.ts:66-68 | a connect sends exactly one `subscribe` for each live id and none for any other id |
| SubscriptionSession.UpdateRoutes | src/createSubscribe.ts:70-77 | an update reaches only the sink of the live record its `id` names, which is offered the payload without `id`; unknown ids change nothing; nothing but that sink's log changes |
| SubscriptionSession.CancelStopsDelivery | src/createSubscribe.ts:100-103 | a teardown emits `unsubscribe id` iff connected; the registry becomes exactly the old one minus `id`, the order the old order without `id`; logs are kept; the next update for it changes nothing |
| SubscriptionSession.NeverRevived | src/createSubscribe.ts:81 | an issued id that is not live never becomes live again, whatever events follow |
| SubscriptionSession.CancelledStaysSilent | src/createSubscribe.ts:70-77 | after a teardown of an issued id, no update for it reaches anyone, after any events in between |
| SubscriptionSession.RefusedStaysSilent | src/createSubscribe.ts:83-89 | the observer of a refused activation never receives a value, whatever events follow |
| SubscriptionSession.RunAppend | src/createSubscribe.ts:60-77 | running one more event after a run is one step from the run's final state |
| SubscriptionSession.UpdatesInOrder | src/createSubscribe.ts:70-77 | a run of updates keeps the registry and offers each sink, in arrival order, exactly the stripped payloads routed to it |
| SubscriptionSession.ValuesArriveInOrder | src/createSubscribe.ts:76 | an open sink's values after a run of updates are its earlier values followed by the payloads routed to it, in order |
| SubscriptionSession.CancelRepeated | src/createSubscribe.ts:100-103 | a second teardown of the same id removes nothing more but sends `unsubscribe` again when connected |
| SubscriptionSession.CloseCompletes | src/createSubscribe.ts:108-114 | `close` disconnects and completes every live sink exactly once, leaving its values; other sinks are untouched; registry, order and outbox are kept |
| SubscriptionSession.CloseSilences | src/createSubscribe.ts:108-114 | after `close` no update reaches any observer |
| SubscriptionSession.CloseIdempotent | src/createSubscribe.ts:108-114 | a second `close` changes nothing |
| SubscriptionSession.SilentAfterClose | src/createSubscribe.ts:108-109 | after `close` no event other than a connect sends anything |
| SubscriptionSession.SilentWhileDisconnected | src/createSubscribe.ts:46-54 | while disconnected, any sequence of events without a connect leaves the outbox unchanged: nothing is buffered |
| SubscriptionSession.StepBounds | src/createSubscribe.ts:81 | one event keeps the options and advances the counter by one exactly when it is an activation |
| SubscriptionSession.RunBounds | src/createSubscribe.ts:81-83 | along any run the options stay fixed, the counter grows by the number of activations (so ids are increasing and never reused), and the registry never exceeds `max` |
| Protocol.Strip | src/createSubscribe.ts:70 | the delivered payload is the update minus its `id` field, every other field unchanged |
| Registry.Target | src/createSubscribe.ts:71-74 | an update finds a record iff its `id` is a number that is a live key, and then it is that record |
| Registry.Without | src/createSubscribe.ts:102 | `delete` removes exactly that id from the order and keeps the others |
| Registry.WithoutIncreasing | src/createSubscribe.ts:102 | deletion keeps the insertion order increasing |
| Registry.ReplayAt | src/createSubscribe.ts:66-68 | the i-th replayed notice is the `subscribe` of the i-th record in insertion order, with its query and variables |
| Registry.ReplayIncreasing | src/createSubscribe.ts:66-68 | replayed notices go out in increasing id order |
| Registry.ReplayOnce | src/createSubscribe.ts:66-68 | the replay names every live id exactly once and no other |
| Sinks.CompletesAtMostOnce | src/createSubscribe.ts:112 | a sink log holds at most one completion, and holds one iff it has completed |
| Sinks.CompleteDeliversOnce | src/createSubscribe.ts:112 | completing a sink leaves exactly one completion and its values as they were |
| Sinks.CompleteIdempotent | src/createSubscribe.ts:112 | completing a completed sink changes nothing |
| Sinks.NoValuesAfterComplete | src/createSubscribe.ts:76 | a completed sink receives no further values |
| Sinks.ValuesInOrder | src/createSubscribe.ts:76 | an open sink receives successive values in the order offered |
| Sinks.CompleteEachAt | src/createSubscribe.ts:111-113 | completing the listed sinks completes exactly those and leaves every other log |
| CreateSubscribe.Session.constructor | src/createSubscribe.ts:26-32 | the new object is the initial state and valid |
| CreateSubscribe.Session.EmitTransient | src/createSubscribe.ts:46-54 | appends exactly the notice when connected, otherwise changes nothing |
| CreateSubscribe.Session.SendSubscribe | src/createSubscribe.ts:56-58 | sends `subscribe {id, query, variables}` through `emitTransient` |
| CreateSubscribe.Session.ReplayAll | src/createSubscribe.ts:66-68 | the loop appends the replay of every record in insertion order |
| CreateSubscribe.Session.OnConnect | src/createSubscribe.ts:61-69 | the object ends in `Connected` of its old state and stays valid |
| CreateSubscribe.Session.OnDisconnect | src/createSubscribe.ts:109 | the object ends in `Disconnected` of its old state and stays valid |
| CreateSubscribe.Session.OnUpdate | src/createSubscribe.ts:70-77 | the object ends in `Updated` of its old state and stays valid |
| CreateSubscribe.Session.Activate | src/createSubscribe.ts:80-98 | the returned id and acceptance, and the new state, are those `Activated` computes; stays valid |
| CreateSubscribe.Session.Cancel | src/createSubscribe.ts:100-103 | the object ends in `Cancelled` of its old state and stays valid |
| CreateSubscribe.Session.CompleteAll | src/createSubscribe.ts:111-113 | the loop completes every registered sink in insertion order |
| CreateSubscribe.Session.Close | src/createSubscribe.ts:108-114 | the object ends in `Closed` of its old state and stays valid |
| Scenarios.AuthenticateOnConnect | tests/createSubscribe.test.ts:66-74 | with token `foo` a connect sends `authenticate foo`; with an empty token a connect sends nothing |
| Scenarios.PendingSubscriptionsOnConnect | tests/createSubscribe.test.ts:76-116 | two streams started before connecting get ids 0 and 1; nothing is sent before the connect; the connect sends their `subscribe` notices in that order |
| Scenarios.SubscribeWhileConnected | tests/createSubscribe.test.ts:118-143 | a stream started while connected is accepted as id 0 and announced at once |
| Scenarios.MatchUpdatesById | tests/createSubscribe.test.ts:145-181 | two updates for id 0 reach the observer as `{data: foo}` then `{data: bar}` |
| Scenarios.CloseEndsStreams | tests/createSubscribe.test.ts:183-222 | after update, close and update, the observer has received `{data: foo}` then a completion, and nothing more |
| Scenarios.NothingSentAfterClose | src/createSubscribe.ts:108-114 | a stream started after `close` is still registered, and not announced |
| Scenarios.CapacityRefusesActivation | src/createSubscribe.ts:81-89 | with capacity 1 a second stream takes id 1 but is neither registered nor announced |
| Scenarios.CancelThenUpdate | src/createSubscribe.ts:100-103 | a teardown sends `unsubscribe 0`, and a later update for id 0 changes nothing |
| Scenarios.ReconnectReplaysLive | src/createSubscribe.ts:61-103 | a connect after a cancellation announces only the remaining stream |

## Left out

- URL parsing (src/createSubscribe.ts:34-42) is left out. It is a thin wrapper over the `URL` constructor and `window.location`. The transport address is not part of the options modelled.
- The socket.io client is left out, including `io(...)`, real reconnects and `subscribeFn.socket`. It is replaced by a `connected` flag, explicit connect and disconnect events, and a log of notices sent.
- The unused `_APOLLO_TYPES` enum (src/createSubscribe.ts:4-18) is left out: it is dead code.
- The `__DEV__` warning at the capacity limit (src/createSubscribe.ts:84-87) is left out: it is console output with no effect on state.
- Relay's `Observable.create` is not modelled: its laziness, its sink object, and what it does around the teardown the closure returns. Starting a stream is an explicit activation, and a sink is the log its observer sees.
- Relay runs a stream's teardown when its sink completes, and at most once. So in the running program `sink.complete()` at src/createSubscribe.ts:112 runs the teardown at src/createSubscribe.ts:100-103 on the spot. It sends nothing there, because the socket was disconnected at :109, but it deletes the id. The model covers the closure on its own, without that Relay behaviour, so the model differs from the running program as follows:
  - CloseCompletes: the records stay registered after `close`, where the program's registry is empty. In NothingSentAfterClose the order is `[0, 1]`, where the program has `[1]`.
  - ActivationCapacity: records completed by `close` still count against `max`. With capacity 1, the sequence activate, close, activate is refused in the model and accepted by the program.
  - ConnectAnnounces: records completed by `close` would be replayed if the transport were connected again later.
  - CancelRepeated: this describes calling the closure's teardown twice. Relay never does that, so no caller can cause the second `unsubscribe`.
- Op.Cancel accepts any id. In the program a teardown exists only for an accepted activation: a refused one returns no teardown (src/createSubscribe.ts:88). So runs of `Run` include `unsubscribe` notices the program cannot send. The safety lemmas hold for every run, and so they also hold for the runs the program can produce.
- The counter is unbounded. In the program `nextSubscriptionId++` (src/createSubscribe.ts:81) is a JavaScript number, which stops advancing at 2^53.
- Re-entrancy is not modelled. An observer callback that starts a stream during the `forEach` of `close` (src/createSubscribe.ts:111-113) would have that stream visited and completed too. The model's events are atomic.
- Sinks are separate logs per id. So the model does not capture the relative order in which `close` completes different sinks. `CreateSubscribe.Session.CompleteAll` does iterate in insertion order.
- JSON numbers are integers (`JNum(int)`). Fractional or non-numeric ids never match a record, which is what the `Map` lookup with a number key does. `maxSubscriptions` is a `nat`: negative or fractional capacities are not modelled.
- `Registry.Replay` skips an id in the order that has no record, and `Sinks.Log` reads a missing log as empty. These defaults make the transition functions total; the invariant `Consistent` shows that neither case occurs in a reachable state.
- The closure sets no terminal `closed` flag. An activation after `close` is still accepted and registered, and announced at the next connect. The program behaves the same way, and so does the model (NothingSentAfterClose).
