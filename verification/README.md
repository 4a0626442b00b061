# Chat widget session and relay core, in Dafny

This project models the stateful core of a customer chat widget:

- **Session lifecycle** (`SessionManager`). The visitor's session record lives under `chatUser`. It expires 24 hours after creation. Expiry is checked lazily with the boundary `now > expiresAt`. When a parseable session has expired, or has no truthy `expiresAt`, a cleanup cascade removes it and the admin flag (`adminMode`). If its `userId` is truthy, the cascade also removes that user's two message buffers (`messages_<userId>`, `chatMessages_<userId>`); otherwise every buffer stays. When there is no session, an orphan sweep removes the admin flag and every buffer key of any user. A corrupt session is removed and then gets the same orphan sweep, since no user is known.
- **Visitor id** (`getUserId` in `userId.js`). The id is a UUID plus the normalised site host. It is reused for 24 hours through `chat_user_id` and `chat_user_id_time`.
- **Realtime relay** (`useAbly`). The module-level client and connection flag form a small state machine. The admin-reply filter decides which inbound chat messages reach the visitor.
- **Unread counter** (`useChatNotifications`). A global flag and counter.

`localStorage` is an immutable `map<string, Stored>`, and every operation is a pure function from the old store to the new one. The clock (`Date.now()`), the random text (`Math.random()`, `crypto.randomUUID()`), the auth endpoint's reply and the transport's connection events are parameters.

Modules: `Wrappers` (Option), `Strings` (prefixes, radix formatting, decimal reading), `Js` (values, truthiness, coercing comparisons), `Storage` (stored items and the JSON read), `Host` (host normalisation), `Session`, `VisitorId`, `Relay`, `Notifications`.

A stored item is one of three things:
- `Text(raw)`: a plain string. `Text("")` is the falsy empty string.
- `Record(fields)`: JSON text of a non-null value, described by its properties.
- `Corrupt`: text on which `JSON.parse` throws, or text that parses to `null`.

Record properties are `Num` (integers), `Str`, `Bool` or `Null`. A missing property is `undefined`. Truthiness, `ToNumber` and the coercing comparisons `now > v` and `now - v > d` follow JavaScript. A value that coerces to NaN makes those comparisons false.

Facts about the code that shape the model:
- Admin mode has no lifetime of its own. `enableAdminMode` reuses `SESSION_DURATION` (86400000 ms).
- The admin-reply filter looks only at `msg.name === 'new.message'`. No nested `event_type` payload is normalised.
- `isSessionValid` only reads. A corrupt `chatUser` is removed by the start-up sweep (`clearExpiredSessions`), not by the validity check.
- The typing debounce is configured in the chat library, not implemented in this code.

## Model

| member | source | states |
|---|---|---|
| Storage.ReadJson | src/components/utils/sessionManager.js:48-53 | a missing or empty item reads as absent; only a record parses; any other non-empty item fails to parse |
| Session.IsSessionValid | src/components/utils/sessionManager.js:47-65 | true iff `chatUser` holds a parseable record with a truthy `expiresAt` that `now` has not passed; for a numeric expiry `e`, true iff `e != 0` and `now <= e`, so the boundary instant is valid |
| Session.CreateSession | src/components/utils/sessionManager.js:70-84 | writes only `chatUser`; the record keeps every form field except the four it overrides; `userId` is the given id; `token` is random text plus `now` in base 36; `expiresAt` is `now + 86400000`; `createdAt` is `now` |
| Session.CreatedSessionWindow | src/components/utils/sessionManager.js:47-84 | a session created at `now` is valid at `t` iff `t <= now + 86400000` (and that expiry is non-zero) |
| Session.GetSessionData | src/components/utils/sessionManager.js:274-284 | returns a record exactly when `chatUser` holds a parseable one, and returns that record |
| Session.CreateThenGetSessionData | src/components/utils/sessionManager.js:70-84 | reading the session back after `createSession` gives the record written |
| Session.GetUserId | src/components/utils/sessionManager.js:22-42 | returns the stored session's truthy `userId` unchanged; otherwise the generated `user_<now>_<random>_<host>` id; it returns no store, so it never writes |
| Session.FreshUserIdShape | src/components/utils/sessionManager.js:35-40 | a generated id starts with `user_` and ends with `_` and the normalised host |
| Session.EnableAdminMode | src/components/utils/sessionManager.js:89-98 | writes only `adminMode`, a record with exactly the properties `active` (true), `expiresAt` (`now + SESSION_DURATION`) and `createdAt` (`now`) |
| Session.IsAdminModeActive | src/components/utils/sessionManager.js:103-122 | true iff the flag parses, is unexpired and has `active === true`; a corrupt or expired flag is removed; an unexpired one is kept even when not active; no other key changes |
| Session.AdminModeWindow | src/components/utils/sessionManager.js:89-122 | after `enableAdminMode` at `now`, the check is true iff `t <= now + SESSION_DURATION`; once false, it has removed exactly the flag |
| Session.CleanAdminMode | src/components/utils/sessionManager.js:235-249 | the flag survives iff it is empty or an unexpired record; no other key changes |
| Session.AdminCheckCleansLikeSweep | src/components/utils/sessionManager.js:103-122 | the admin check leaves the same store as `cleanAdminMode` |
| Session.ClearAllUserData | src/components/utils/sessionManager.js:167-181 | removes exactly `chatUser`, `adminMode`, and `messages_<id>` / `chatMessages_<id>` when the id is truthy |
| Session.ClearOrphanedData | src/components/utils/sessionManager.js:186-195 | removes exactly the keys starting with `messages_` or `chatMessages_` plus `adminMode` |
| Session.OrphanSweepIdempotent | src/components/utils/sessionManager.js:186-195 | a second orphan sweep removes nothing |
| Session.KeysDistinct | src/components/utils/sessionManager.js:167-195 | a user's four keys are pairwise distinct; the buffers and the flag fall under the orphan sweep; `chatUser` does not |
| Session.CleanBuffer | src/components/utils/sessionManager.js:203-215 | a buffer survives iff it is empty or a record with a truthy `timestamp` at most `SESSION_DURATION` old; no other key changes |
| Session.CleanUserMessages | src/components/utils/sessionManager.js:200-230 | each of the user's two buffers survives by that rule independently; no other key changes |
| Session.ClearExpiredSessions | src/components/utils/sessionManager.js:127-162 | only removes keys. No session: orphan sweep. Corrupt session: also removes `chatUser`. Expired session: removes exactly the cascade keys. Live session with a truthy id: keeps `chatUser`, and the two buffers and the flag survive iff fresh. Live session without an id: no change |
| Session.SweptSessionState | src/components/utils/sessionManager.js:127-162 | a valid session is untouched by the sweep; an invalid one leaves no parseable record behind |
| Session.ValidityUnchangedBySweep | src/components/utils/sessionManager.js:127-162 | the sweep never changes whether the session is valid |
| Session.SweepLeavesNoOrphans | src/components/utils/sessionManager.js:144-155 | with no parseable session, no buffer key and no admin flag remain |
| Session.SweepSettles | src/components/utils/sessionManager.js:127-162 | a second sweep at the same instant changes nothing, except after an expiry cascade, where it is an orphan sweep; a third sweep always changes nothing |
| Session.ExpiryCascadePurgesUser | src/components/utils/sessionManager.js:139-143 | a session created at `now` and swept at `now + SESSION_DURATION + 1` loses `chatUser`, `adminMode` and both of its buffers; every other key is kept |
| Session.Logout | src/components/utils/sessionManager.js:254-269 | `chatUser` and `adminMode` are always gone; the user's buffers go only when a truthy `userId` is readable; nothing else changes |
| Session.LogoutEndsEverything | src/components/utils/sessionManager.js:254-269 | after logout, no session is valid and admin mode is off at any time |
| Session.InitSession | src/components/utils/sessionManager.js:10-17 | the returned store is exactly the start-up sweep's result, so the sweep's cascade and orphan rules hold at start-up; reports a valid session iff one was valid before; returns the stored id iff the session was valid with a truthy id, else a fresh id |
| Session.FirstVisitScenario | src/components/utils/sessionManager.js:10-41 | with empty storage on `https://www.example.com/widget`: id `user_<now>_<random>_example.com`, no valid session, nothing written |
| Session.ReturningVisitKeepsId | src/components/utils/sessionManager.js:10-41 | after `createSession` with a truthy id, every start-up within the window reports a valid session and returns that id |
| Session.CorruptSessionScenario | src/components/utils/sessionManager.js:144-148 | a corrupt `chatUser` is not valid, and start-up removes it and issues a fresh id |
| Host.StripScheme | src/components/utils/userId.js:26 | drops one leading `https://` or `http://`, otherwise changes nothing |
| Host.StripWww | src/components/utils/userId.js:27 | drops one leading `www.`, otherwise changes nothing |
| Host.BeforeSlash | src/components/utils/userId.js:28 | the longest `/`-free prefix: no `/` inside, and followed by `/` unless it is the whole string |
| Host.CleanHost | src/components/utils/userId.js:25-28 | the normalised host contains no `/` |
| Host.CleanHostRecoversHost | src/components/utils/userId.js:25-28 | scheme + optional `www.` + host + path normalises back to the host |
| Host.CleanHostExample | src/components/utils/userId.js:25-28 | `https://www.example.com/widget` gives `example.com` |
| Strings.DecimalRoundTrip | src/components/utils/userId.js:35-42 | `Number(String(now))` is `now`, so the stored time reads back exactly |
| VisitorId.GetVisitorId | src/components/utils/userId.js:23-45 | reuses the stored id with no write iff both keys are present, the time is numeric and `now - time < 24h`; otherwise returns `uuid_host` and overwrites both keys with it and `now`; no other key changes |
| VisitorId.NewIdEndsWithHost | src/components/utils/userId.js:40 | a generated id ends with `_` and the normalised host |
| VisitorId.ReuseWithinWindow | src/components/utils/userId.js:33-43 | a call strictly less than 24h after a generating call returns the same id and writes nothing |
| VisitorId.RegenerateAfterWindow | src/components/utils/userId.js:33-43 | from 24h after a generating call on, a new id and time are written |
| Relay.Granted | src/composables/userAbly.js:29-40 | grants credentials iff the response is 2xx, its body reads as JSON, `success` is truthy and `data` is present; the credentials are that `data` |
| Relay.InitializeAbly | src/composables/userAbly.js:11-74 | an initialised relay returns true unchanged; otherwise true iff auth grants; on failure nothing changes; on success a new client with the granted token, no handlers, a client id exactly when the granted one is non-empty (an empty one becomes `undefined`), connection flag untouched |
| Relay.InitializedSkipsAuth | src/composables/userAbly.js:12-15 | when initialised, the outcome does not depend on the auth reply |
| Relay.OnConnectionEvent | src/composables/userAbly.js:49-66 | `connected` sets the flag; `disconnected` and `failed` clear it; `connecting` changes nothing |
| Relay.Disconnect | src/composables/userAbly.js:163-170 | a live client is dropped and the flag cleared; without one, nothing changes |
| Relay.DisconnectForcesReauth | src/composables/userAbly.js:163-170 | after disconnect, initialisation succeeds iff auth grants, with a new connection epoch |
| Relay.AdminReplyHandler | src/composables/userAbly.js:96-102 | passes `msg.data` unchanged iff the event is `new.message`, data is present, `session_id === sessionId` and `sender_type === 'admin'` |
| Relay.FilterSeparatesSessions | src/composables/userAbly.js:96-100 | an admin reply for session A reaches A's subscriber and not B's; a non-admin message reaches no one |
| Relay.OnAdminReply | src/composables/userAbly.js:77-135 | uninitialised: registers nothing and returns a no-op; otherwise appends one admin-reply handler on `chat-messages`, leaves the connection's epoch, token and client id and the connection flag as they were, and returns a handle for that handler |
| Relay.AdminReplyDelivery | src/composables/userAbly.js:86-122 | the new handler adds exactly one delivery of `msg.data`, for exactly the filtered messages on `chat-messages`; earlier deliveries are unchanged |
| Relay.Subscribe | src/composables/userAbly.js:137-161 | uninitialised: registers nothing and returns a no-op; otherwise appends a forwarding handler, leaves the connection's epoch, token and client id and the connection flag as they were, and returns a handle that detaches the whole channel |
| Relay.SubscribeForwardsEverything | src/composables/userAbly.js:146-149 | every message on the channel reaches the callback unfiltered |
| Relay.StartIsValid | src/composables/userAbly.js:5-6 | at module load there is no service and no connection, the relay invariant holds (the flag is set only while a service exists), and the first initialisation succeeds iff auth grants |
| Relay.SubsequenceKeepsOrder | src/composables/userAbly.js:127-156 | any two handlers that survive an unsubscribe occur in the same order among the handlers before it, so the remaining callbacks fire in registration order |
| Relay.CallUnsubscribe | src/composables/userAbly.js:127-156 | a handle acts only on the connection that issued it; on that connection it removes exactly the handlers it selects (one handler, or every handler of its channel): none of them remains, every other handler stays in its registration order (the survivors are a subsequence of the handlers before), nothing is added, and the connection's epoch, token and client id are kept |
| Relay.UnsubscribeIdempotent | src/composables/userAbly.js:127-156 | calling a handle twice equals calling it once |
| Relay.AdminReplyUnsubscribeRestores | src/composables/userAbly.js:127-130 | the `onAdminReply` handle undoes exactly its registration |
| Relay.ChannelUnsubscribeDetachesAll | src/composables/userAbly.js:153-156 | the `subscribe` handle silences the channel, including admin-reply handlers on it; other channels keep their handlers |
| Relay.StaleHandleAfterReconnect | src/composables/userAbly.js:163-170 | a handle from a closed client does nothing to the next client |
| Notifications.SetUnreadMessage | src/composables/useChatNotifications.js:8-15 | true or omitted: flag set and count up by exactly one; false: back to `(false, 0)` |
| Notifications.ClearUnreadMessages | src/composables/useChatNotifications.js:17-20 | restores `(false, 0)` from any state |
| Notifications.ClearIdempotent | src/composables/useChatNotifications.js:17-20 | clearing twice equals clearing once |
| Notifications.RunCountsSinceReset | src/composables/useChatNotifications.js:4-20 | from load, the count equals the number of `setUnreadMessage(true)` calls since the last reset, and the flag is set iff that number is positive |
| Notifications.RunKeepsConsistent | src/composables/useChatNotifications.js:4-20 | from a consistent state, the flag equals `count > 0` and the count stays non-negative after any calls |

## Left out

- `JSON.parse` and `JSON.stringify` are not modelled. A stored item is abstracted to `Text`, `Record` or `Corrupt`.
- Storage.ReadJson: non-empty plain `Text` is read as unparseable. This is right for the visitor ids, which are not JSON. A bare number string would in fact parse to a value with no properties. No JSON key is ever written with plain text in the model.
- Strings.NumberOfText: only an optional sign followed by decimal digits reads as a number, and the empty string reads as 0. Whitespace, fractions, exponents, hex and `Infinity` read as NaN. JSON or corrupt text under `chat_user_id_time` also reads as NaN.
- Numbers are integers, not floating point. `hoursPassed < 24` is the exact integer test `now - time < 86400000`. `String(n)` is plain decimal digits, without the exponent form JavaScript uses from 10^21 on.
- Each operation reads the clock once. The source calls `Date.now()` several times within `createSession`, `enableAdminMode`, `getUserId` and `initSession`, and three times within `clearExpiredSessions` (directly, in `cleanUserMessages` and in `cleanAdminMode`).
- The random parts are unconstrained string parameters: `Math.random().toString(36)` text and `crypto.randomUUID()`.
- Session.CreateSession: `userId` is always a defined value. An `undefined` id, which `JSON.stringify` would drop, is not modelled. Record property values are never nested objects or arrays.
- Relay.InitializeAbly: the `fetch` call, `res.text()`, the `Ably.Realtime` constructor and `close()` are abstract. The constructor is taken never to throw. Auth outcomes are the `AuthReply` input.
- Relay.InitializeAbly: each call is atomic. In the source the call is `async`: the guard runs before `await fetch` and the client is stored only at the end. Two overlapping calls can therefore both authenticate and both build a client. The second then replaces the first, whose connection handlers keep setting `isConnected`. Overlapping calls are not modelled.
- Session.GetUserId: `website` is always a string. `SessionManager.getUserId` has no default argument. Without a stored truthy `userId`, a missing `website` makes `website.replace` throw a TypeError, and `initSession` then throws after its sweep has run. That path is not modelled.
- Relay.OnConnectionEvent: connection events are taken to arrive only while a client exists. Events from a closed client are not modelled.
- Relay.Subscribe: the `channels.get` failure path (`catch` returning a no-op), which a caller-supplied channel name could reach, is not modelled.
- Relay.OnAdminReply: the `channels.get` failure path (`catch` returning a no-op) is not modelled. The `attached` and `failed` channel listeners only log and are left out.
- Notifications.SetUnreadMessage: only boolean or omitted arguments are modelled. Counter precision beyond 2^53 is ignored.
- Console logging and Vue reactivity (`ref`, `readonly`, `computed`) are left out.
- `server.js` is left out: HTTP handlers around a foreign completion call.
- `useTypingIndicator.js` is left out: the typing timeout is configured in the chat library, so there is no debounce here to verify.
- `main.js` and `vite.config.js` are left out: element registration and build configuration.
