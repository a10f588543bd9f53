# WebSocket connection client — a Dafny model

This project models `WebSocketClient` from `src/utils/websocket.ts` of the
apichat desktop app. The client manages one persistent duplex connection
through the Tauri WebSocket plugin. It normalises inbound frames and outbound
sends into `sent` / `received` / `system` messages. Two ordered registries of
listeners are told about every message and every status change.

The model is functional. A `Client` record holds:

- the status (`disconnected`, `connecting`, `connected`, `error`);
- whether a transport handle is held;
- the last target URL;
- the message-listener and status-listener registries.

Each lifecycle operation is a pure function. It takes the outcome of every
transport call it makes as an input: `Ok` or `Fail(cause)` for close, open,
subscribe and send. It returns a `Step` with four parts:

- the new client;
- the transport calls made, in order;
- the notifications made, in order, as status changes and messages;
- whether the operation returned or threw.

`Deliveries` expands a notification trace into the individual listener calls.
Each registry is walked in order, and a set of listeners that throw can be
supplied. This is how dispatch isolation is stated: a throwing listener
neither stops the ones after it nor reaches the caller.

Files, one module each:

- `values.dfy` (`Values`): the JavaScript values the inbound classifier inspects, with `typeof`, truthiness and property lookup.
- `events.dfy` (`Events`): statuses, messages, notifications, thrown values, and the fixed failure-message prefixes.
- `inbound.dfy` (`Inbound`): the inbound classifier.
- `registry.dfy` (`Registry`): `push` / `indexOf`+`splice` on a registry, the guarded `forEach` fan-out, and what one listener receives from it.
- `client.dfy` (`Client`): the client record and `connect`, `send`, `disconnect`, inbound delivery, the accessors and the registry operations.
- `lifecycle.dfy` (`Lifecycle`): the status state machine, invariants kept by every run of operations, and the handle/status pairing.
- `listening.dfy` (`Listening`): what each registered listener receives from each operation.

Points where the code's behaviour is easy to misread, which the model follows:

- The URL is recorded before the open attempt (line 42), so `getUrl()` returns the new URL even after a failed connect.
- The handle is stored (line 43) before the subscription is installed (line 46). A subscription that throws therefore leaves a handle held under status `error`. So "connected exactly when a handle is held" holds only when open and subscription succeed or fail together (`Lifecycle.ReachableClientsArePaired`). `Lifecycle.SubscribeFailureLeavesHandle` exhibits the other case.
- `send` tests for a held handle, not for `isConnected()` (line 95). In the state just described, `send` reaches the transport even though `isConnected()` is false.
- `data.data as string` (line 62) is a type cast, not a conversion. The content of a `received` message is therefore whatever value the `data` field held, so it is modelled as a JavaScript value.
- `connect` does not check that the URL is non-empty, and neither does the model.

## Model

| member | source | states |
|---|---|---|
| `Registry.Add` | src/utils/websocket.ts:141-143 | Adding a listener appends it at the end and leaves the earlier entries and their order untouched. It adds exactly one copy. |
| `Registry.IndexOf` | src/utils/websocket.ts:146-151 | The result is -1 exactly when the listener is absent. Otherwise it is a position holding the listener with no earlier occurrence. |
| `Registry.Remove` | src/utils/websocket.ts:146-151 | Removal deletes only the first matching entry and keeps the rest in order. It deletes exactly one copy (multiset difference) and is a no-op when nothing matches. |
| `Registry.RemoveUndoesAdd` | src/utils/websocket.ts:141-151 | Removing a listener just added to a registry that did not hold it restores the registry exactly. |
| `Registry.Notify` | src/utils/websocket.ts:182-190 | The `forEach` branches on each call's outcome, and the catch logs a throwing call and goes on to the next listener. So every registered listener is called exactly once, in registration order, and its call is marked as thrown exactly when that listener throws. Each listener receives the message once per registration, whichever listeners throw. |
| `Registry.SeenByDispatch` | src/utils/websocket.ts:193-202 | In one fan-out a listener receives the event once per registration and nothing else, whatever the other listeners throw. |
| `Registry.RemovedListenerIsNotCalled` | src/utils/websocket.ts:159-164 | After removing a listener registered once, a fan-out no longer reaches it. |
| `Inbound.Classify` | src/utils/websocket.ts:46-65 | A delivery is dropped exactly when it is an object whose `type` is `Close`. Strings pass through unchanged. Other objects with a `data` field yield that field. Everything else yields its serialisation. The Close test takes precedence over the `data` test. |
| `Events.FailureMessage` | src/utils/websocket.ts:79-87 | A failure report is a system message whose text starts with the given prefix. After the prefix comes the Error's message, or the fallback for a non-Error. |
| `Client.Initial` | src/utils/websocket.ts:20-26 | A new client is disconnected, holds no handle, has the empty URL and empty registries. From it, every run keeps the state-machine invariant (`Lifecycle.RunKeepsInvariant`) and, under the atomic-subscribe condition, the pairing (`Lifecycle.ReachableClientsArePaired`). |
| `Client.Connect` | src/utils/websocket.ts:29-91 | Connect closes a held handle first (and only then). The URL is always recorded and the registries are untouched. Connecting is announced first, and Disconnected is never announced. The final status is Connected exactly when open and subscribe both succeed; then the handle is held, the trace is Connecting, Connected, and nothing is thrown. Otherwise the status is Error, the trace is Connecting, Error plus one connect-failure system report, and the failing call's cause is rethrown. The transport calls are exactly: a close if a handle was held, then the open of the new URL, then the subscription if the open succeeded; no other close occurs. An open failure leaves no handle; after a successful open the handle is held, even when the subscription then fails. |
| `Client.Send` | src/utils/websocket.ts:94-122 | Send never changes the client. Without a handle it makes no transport call and no notification, and throws the not-connected error. With a handle it transmits the text and emits exactly one message: `sent` with the text on success, or a send-failure system report with the cause rethrown. |
| `Client.Disconnect` | src/utils/websocket.ts:125-138 | Disconnect never throws. Without a handle it changes nothing and notifies no one. With a handle it closes it and, whatever the close returned, ends with no handle and status Disconnected. It announces Disconnected once and keeps the URL and the registries. |
| `Client.Deliver` | src/utils/websocket.ts:46-74 | An inbound delivery changes no state and makes no transport call. It emits nothing exactly for a Close notice and otherwise exactly one `received` message. That message's content is what the classifier yields: the `data` field of an object frame, a string frame itself, or the serialisation of anything else. |
| `Client.AddMessageListener` | src/utils/websocket.ts:141-143 | Only the message registry changes, by appending the listener. The status registry, status, handle and URL are unchanged. |
| `Client.RemoveMessageListener` | src/utils/websocket.ts:146-151 | Only the message registry changes, by removing the first registration of the listener if any. The status registry, status, handle and URL are unchanged. |
| `Client.AddStatusListener` | src/utils/websocket.ts:154-156 | Only the status registry changes, by appending the listener. The message registry, status, handle and URL are unchanged. |
| `Client.RemoveStatusListener` | src/utils/websocket.ts:159-164 | Only the status registry changes, by removing the first registration of the listener if any. The message registry, status, handle and URL are unchanged. |
| `Client.Deliveries` | src/utils/websocket.ts:181-202 | Every listener call made for a notification trace carries an event of that trace. A status change reaches only status listeners and a message only message listeners, and a call is marked as thrown exactly when that listener is among the throwing ones of its registry. `Listening.SeenByDeliveries` states how often and in what order each listener is reached. |
| `Lifecycle.ApplyKeepsInvariant` | src/utils/websocket.ts:29-138 | Every operation keeps three facts: the status is never Connecting between operations; Connected implies a handle; Disconnected implies none. Every status change it announces is a permitted state-machine transition, and the final status equals the last one announced. |
| `Lifecycle.RunKeepsInvariant` | src/utils/websocket.ts:29-138 | The facts of `ApplyKeepsInvariant` hold for any sequence of operations, over the whole notification trace of the run. |
| `Lifecycle.ApplyKeepsPaired` | src/utils/websocket.ts:40-90 | When a successful open is never followed by a failing subscription, every operation keeps "Connected exactly when a handle is held". |
| `Lifecycle.RunKeepsPaired` | src/utils/websocket.ts:40-90 | The pairing of `ApplyKeepsPaired` holds across any sequence of such operations. |
| `Lifecycle.ReachableClientsArePaired` | src/utils/websocket.ts:176-179 | From a freshly constructed client, under the same condition, `isConnected()` holds exactly when a handle is held. |
| `Lifecycle.SubscribeFailureLeavesHandle` | src/utils/websocket.ts:40-78 | For any client, URL and close outcome, a subscription that throws after a successful open leaves the handle held under status Error, which breaks the pairing. A later `send` still reaches the transport. |
| `Listening.SeenByDeliveries` | src/utils/websocket.ts:181-202 | For any trace and any throwing listeners, a listener receives each status change once per status registration and each message once per message registration, in trace order. |
| `Listening.StatusListenerHearsStatusChanges` | src/utils/websocket.ts:193-202 | A status listener registered once receives exactly the trace's status changes, in order. |
| `Listening.MessageListenerHearsMessages` | src/utils/websocket.ts:182-190 | A message listener registered once receives exactly the trace's messages, in order. |
| `Listening.ConnectSuccessNotifies` | src/utils/websocket.ts:41-76 | After a successful connect, `isConnected()` holds, a handle is held and `getUrl()` is the new URL. Status listeners receive exactly Connecting then Connected, and message listeners receive nothing. The listener facts hold for every listener registered once, in its own registry only. |
| `Listening.ConnectFailureNotifies` | src/utils/websocket.ts:40-90 | After a rejected open the status is Error with no handle, `getUrl()` is already the new URL, and the cause is rethrown. Status listeners receive Connecting then Error, and each message listener receives exactly one connect-failure system report. The listener facts hold for every listener registered once, in its own registry only. |
| `Listening.ReconnectClosesOldHandle` | src/utils/websocket.ts:31-38 | Connecting over a held handle closes it before opening the new one. The close's outcome does not affect the result, the status never passes through Disconnected, and a failed open leaves no handle. |
| `Listening.SendWithoutHandleNotifiesNobody` | src/utils/websocket.ts:95-97 | Send without a handle reaches no listener and no transport, leaves the client unchanged and throws the not-connected error. |
| `Listening.SendSuccessReachesEveryListener` | src/utils/websocket.ts:99-108 | A successful send calls every message listener exactly once, in registration order, with one `sent` message carrying the text. |
| `Listening.SendFailureNotifies` | src/utils/websocket.ts:109-121 | A rejected send gives each message listener exactly one send-failure system report and rethrows the cause. Status and handle are unchanged. The listener facts hold for every listener registered once, in its own registry only. |
| `Listening.DisconnectResets` | src/utils/websocket.ts:125-138 | Disconnect never throws. With a handle it ends Disconnected without one, and each status listener receives Disconnected once, whatever the close returned. Without a handle nothing changes and no listener is called. The listener facts hold for every listener registered once, in its own registry only. |
| `Listening.InboundTextReachesListeners` | src/utils/websocket.ts:46-74 | An inbound text frame, whether a bare string or the plugin's `{type: "Text", data}` object, reaches each message listener as one `received` message with that text. A Close notice reaches nobody, with or without a `data` field. The listener facts hold for every listener registered once, in its own registry only. |
| `Listening.RemovedMessageListenerHearsNothing` | src/utils/websocket.ts:146-151 | After removing a message listener registered once, no later notification trace reaches it. |
| `Listening.RemovedStatusListenerHearsNothing` | src/utils/websocket.ts:159-164 | After removing a status listener registered once, no later notification trace reaches it. |
| `Listening.AddedListenersHearTheirEvents` | src/utils/websocket.ts:141-156 | A newly added message listener receives exactly the later messages. A newly added status listener receives exactly the later status changes. |

## Left out

- Message `id` and `timestamp` are not modelled. They come from `Date.now()`, and their uniqueness is not promised.
- `JSON.stringify` is the parameter `serialize: Value -> string`, so its exact output is not modelled. The model also ignores that it returns `undefined` rather than a string for `undefined`, which the transport does not deliver.
- Numbers are integers. Floating point, `NaN` and its falsiness are not modelled.
- Arrays are given no properties. This is exact for the only keys the classifier asks about, `type` and `data`, but not for `length` or indices.
- Overlapping asynchronous `connect` / `send` / `disconnect` calls are not modelled, because each operation is one atomic step. The race between concurrent connects is a concurrency concern outside this model.
- Adding or removing listeners from inside a running dispatch is not modelled, because listeners are opaque identities with no access to the client. `Array.prototype.forEach` over an array spliced mid-iteration is therefore not covered.
- `console.error` logging is not modelled. `Call.threw` records which listener calls would have been logged.
- The Tauri plugin (`WebSocket.connect`, `send`, `disconnect`, `addListener`) is a foreign library. It appears only as the outcomes `Ok` / `Fail(cause)` of each call.
- Which handle an inbound delivery comes from is not tracked. The callback installed at line 46 reads the message registry but not the handle or the status, and it is never removed when the handle is replaced or dropped. So `Client.Deliver` may happen in any state.
- `src/utils/request.ts` (an HTTP fetch wrapper with a timeout race) and `src/composables/monaco.ts` (an editor-instance accessor) are not part of this model. They are I/O and foreign-library handles with no logic of the client's.
