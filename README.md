# Shared-canvas relay, modelled in Dafny

The relay in `websocket/server.js` is one Node.js process. Clients from several
platform front-ends connect to it over WebSocket. It keeps four pieces of
module-level state:

- `clientIdCounter`, the last connection id handed out;
- `clients`, a `Map` from connection id to `{ws, platform, username}`;
- `canvasHistory`, the last `MAX_HISTORY = 1000` drawing operations;
- `registrations`, an append-only ledger of email sign-ups.

Each inbound JSON frame is dispatched on its `type`:

- `join` stores the roster entry, replies with the history, and sends the roster to every joined client;
- `draw` appends to the history, evicting the oldest entry when over the cap, and relays the operation to the other clients;
- `clear` empties the history and relays the clear;
- `register` validates the email by regex, refuses duplicates, appends, replies and announces;
- `get_registrations` replies with the ledger.

A `close` removes the connection and re-sends the roster.

The project has six files:

- `messages.dfy` (module `Messages`): the records and the inbound and outbound frames, as datatypes. A send is `Send(to, frame)`.
- `email.dfy` (module `Email`):
  - `IsEmail`, an executable check;
  - `EmailRegex`, a ghost predicate that states the regular expression `^[^\s@]+@[^\s@]+\.[^\s@]+$` literally, as an existential split of the string into `local @ host . tld`;
  - a proof that the two agree on every string.
- `relay_spec.dfy` (module `RelaySpec`): the relay as a state machine on values.
  - `State` holds the counter, the key order of `clients`, the roster, the set of ids whose socket is OPEN, the ids whose `close` has fired, the history and the ledger.
  - There is one `On…` function per handler. Each returns the next state and the `send` calls the handler makes, in order.
  - `Valid` is the invariant every reachable state keeps.
- `relay_properties.dfy` (module `RelayProperties`): the properties of those handlers. They include:
  - the invariant is kept;
  - fresh, strictly increasing ids along any run;
  - the history bound and FIFO eviction over any run of draws;
  - the exact recipient set of each fan-out, sender excluded or not;
  - the two registration refusals and the unique-email invariant;
  - the roster frame and its `count`.
- `relay.dfy` (module `RelayServer`): class `Relay`. Its fields are the module-level variables, and its methods update them in place.
  - `Broadcast` is the `clients.forEach` loop of `broadcast`.
  - `FindRegistration` is the `registrations.find` search.
  - Every handler method is proved to leave the fields, and return the sends, that its `RelaySpec` function prescribes. So everything in `RelayProperties` holds of the class.
- `scenario.dfy` (module `Scenario`): an example session run against the class through its contracts:
  - A and B join;
  - A draws and only B hears of it;
  - A clears, and C, joining later, gets an empty history;
  - `"not-an-email"` is refused, and a second `"a@b.co"` is refused as a duplicate.

Modelling choices:

- The `Map`'s insertion order decides the order of the `users` array and of `forEach`. It is kept as `order: seq<nat>` beside `roster: map<nat, Entry>`.
- Re-joining with a known id overwrites the entry in place. A new id is appended to `order`. `close` deletes the id from `order`.
- `readyState === OPEN` is the set `live`. The socket leaving OPEN before its `close` event fires is the environment event `SocketClosing`.
- A direct `ws.send` to the sender is unconditional in the code, so it is always among the sends. `broadcast` and `broadcastUserList` check `readyState`, and so does the model.
- `data.username || \`User${clientId}\`` and `data.timestamp || new Date().toISOString()` take an `Option<string>`. A missing field and `""` both give the fallback. The clock's ISO string is the parameter `now`.
- A frame whose `JSON.parse` throws is the `Malformed` variant. A `type` no case names is `Unrecognised`. Both leave the state unchanged and send nothing. This matches the `catch` at lines 135-137 and the switch without a `default`.

Where a reader might expect something other than what the code does, the model follows the code:

- The roster broadcast goes only to entries of `clients` whose socket is OPEN. A connection that has not sent `join` gets no `users` frame, not even about others joining.
- `new_registration` likewise goes only to joined OPEN clients, not to every connection.
- The `draw` and `clear` relays reach only joined OPEN clients other than the sender (lines 153-154), not every other connection.
- The `error` handler only logs. It does not remove the client, so a connection is removed only by its `close` event, and the model has no counterpart for the error.
- The `users` list comes in `Map` insertion order. An id that joins again keeps its position, and a closed id drops out.
- Sends are synchronous calls made in the handler's loop. There is no per-connection outbound queue, bounded or otherwise.

## Model

| member | source | states |
|---|---|---|
| Email.IsEmailIsRegex | websocket/server.js:91-92 | the email check accepts a string exactly when `^[^\s@]+@[^\s@]+\.[^\s@]+$` matches it, with `\s` the ECMAScript whitespace and line-terminator set (both directions) |
| Email.IsEmailMatches | websocket/server.js:91-92 | a string the check accepts splits into a non-empty local part, `@`, a non-empty host, `.`, and a non-empty last label, none holding whitespace or `@` |
| Email.MatchPassesCheck | websocket/server.js:91-92 | any such split of a string makes the check accept it |
| Email.FirstIndex | websocket/server.js:91 | the index of the first occurrence of a character, or the length when it is absent |
| Email.NotAnEmailRefused | websocket/server.js:91-92 | `"not-an-email"` fails the email check |
| Email.ShortAddressAccepted | websocket/server.js:91-92 | `"a@b.co"` passes the email check |
| RelaySpec.Delete | websocket/server.js:142 | `Map.delete` on the key order removes exactly the deleted id, keeps every other key and keeps the keys duplicate-free |
| RelaySpec.Decimal | websocket/server.js:34 | the template literal's rendering of an id is a non-empty string of decimal digits, `"0"` for 0 and otherwise without a leading zero |
| RelayProperties.DecimalValue | websocket/server.js:34 | the digits of that rendering, read in base 10, spell the id itself, so the `User<id>` default carries the connection's id |
| RelaySpec.DisplayName | websocket/server.js:34 | the stored username is never empty: the client's non-empty name, otherwise `User<id>` |
| RelayProperties.TargetsConcat | websocket/server.js:38-44 | the recipients of two batches of sends made in sequence are the union of the recipients of each |
| RelayProperties.FanoutSends | websocket/server.js:151-158 | `broadcast` sends only the given frame, to exactly the keys of `clients` that are OPEN and not excluded, and to each at most once |
| RelayProperties.FanoutReachesOpenJoined | websocket/server.js:151-158 | in a valid state `broadcast` reaches exactly the joined OPEN connections minus the excluded one, each once, all with the same frame |
| RelayProperties.DistinctSize | websocket/server.js:161-165 | a duplicate-free key order has as many elements as distinct keys |
| RelayProperties.UsersFrameListsRoster | websocket/server.js:160-171 | the `users` array lists every roster entry once with its stored platform and username, lists nothing else, and `count` equals the number of roster entries |
| RelayProperties.BroadcastUsersAnnounces | websocket/server.js:160-178 | `broadcastUserList` sends one roster frame to each joined OPEN connection and to no one else |
| RelayProperties.RecordEvictsOldest | websocket/server.js:60-63 | one draw makes its record the newest entry; below the cap nothing is dropped, at the cap exactly the oldest entry is; the length stays at most 1000 |
| RelayProperties.NewestOfNewest | websocket/server.js:60-63 | trimming to the newest 1000 entries before appending more and trimming again is the same as trimming once |
| RelayProperties.DrawsKeepNewest | websocket/server.js:11-13 | after any run of draws the history is exactly the newest 1000 entries of the old history followed by the new records, in order |
| RelayProperties.ConnectKeepsValid | websocket/server.js:20-21 | a new connection keeps the invariant |
| RelayProperties.JoinKeepsValid | websocket/server.js:29-46 | `join` keeps the invariant |
| RelayProperties.JoinedValid | websocket/server.js:31-35 | the state after `clients.set` in `join` satisfies the invariant |
| RelayProperties.JoinedOrderKeyed | websocket/server.js:31-35 | after `clients.set` the key order stays duplicate-free and holds exactly the roster's keys |
| RelayProperties.JoinedEntriesNamed | websocket/server.js:31-35 | after `clients.set` every roster entry belongs to an id that was handed out and has not closed, and has a non-empty username |
| RelayProperties.DrawKeepsValid | websocket/server.js:48-67 | `draw` keeps the invariant: history bound, records stamped with issued ids |
| RelayProperties.RegisterKeepsValid | websocket/server.js:82-124 | `register` keeps the invariant: every ledger email passes the check and no two ledger entries share an email |
| RelayProperties.DispatchKeepsValid | websocket/server.js:24-138 | every case of the message handler, including unknown and unparsable frames, keeps the invariant |
| RelayProperties.CloseKeepsValid | websocket/server.js:140-144 | `close` keeps the invariant |
| RelayProperties.SocketClosingKeepsValid | websocket/server.js:154 | a socket leaving readyState OPEN keeps the invariant |
| RelayProperties.ConnectGivesFreshId | websocket/server.js:9-21 | a new connection gets `clientIdCounter + 1`, an id no roster entry, OPEN socket, closed connection or history record carries, and nothing else changes |
| RelayProperties.JoinWritesEntry | websocket/server.js:29-35 | `join` inserts or overwrites the sender's entry (username defaulting to `User<id>`), appends the id to the key order only if it is new, and changes nothing else; the roster grows by one exactly when the id was new |
| RelayProperties.JoinReplaysAndAnnounces | websocket/server.js:37-44 | `join` first sends the sender the current history, then sends the new roster frame to every joined OPEN connection once, the sender included when OPEN |
| RelayProperties.DrawRecordsAndRelays | websocket/server.js:48-67 | `draw` appends the record stamped with the sender's id as the newest history entry within the bound, and relays it once to every joined OPEN connection except the sender; nothing else changes |
| RelayProperties.ClearEmptiesAndRelays | websocket/server.js:69-80 | `clear` empties the history without recording itself, changes nothing else, and relays `{clear, platform, clientId}` once to every joined OPEN connection except the sender |
| RelayProperties.JoinAfterClearSeesEmptyHistory | websocket/server.js:38-41 | a connection joining after a `clear` is sent an empty history |
| RelayProperties.RegisterRefusesMalformed | websocket/server.js:90-98 | an email failing the check leaves the state unchanged and sends only `registration_error` with `Invalid email format`, to the sender |
| RelayProperties.RegisterRefusesDuplicate | websocket/server.js:100-108 | an email equal to one in the ledger leaves the state unchanged and sends only `registration_error` with `This email is already registered`, to the sender |
| RelayProperties.RegisterAppendsAndAnnounces | websocket/server.js:84-88 | a well-formed new email appends exactly one `{email, platform, timestamp}` (the client's timestamp, else the server's), changes nothing else, replies `registration_success`, then sends `new_registration` once to every joined OPEN connection, the sender among them when it has joined and is OPEN |
| RelayProperties.SameEmailTwice | websocket/server.js:100-111 | after any registration of an email, a second registration of it by anyone is refused and changes nothing, so at most one succeeds |
| RelayProperties.QueriesChangeNothing | websocket/server.js:126-137 | `get_registrations` replies with the whole ledger and changes nothing; unknown and unparsable frames change nothing and send nothing |
| RelayProperties.CloseRemovesAndAnnounces | websocket/server.js:140-144 | `close` removes the id from the roster and the key order (nothing more if it never joined), keeps history and ledger, and sends a roster without it, whose count is one less exactly when it had joined, to the remaining joined OPEN connections |
| RelayProperties.ApplyKeepsValid | websocket/server.js:20-148 | every event the transport can deliver keeps the invariant; only a new connection moves the counter, by one |
| RelayProperties.RunKeepsValidAndFreshIds | websocket/server.js:9-21 | along any sequence of events the invariant holds, the counter never decreases, and the ids handed out are strictly increasing and larger than every id handed out before, so never reused |
| RelayServer.Relay.constructor | websocket/server.js:8-16 | the server starts with counter 0, no clients, empty history and empty ledger |
| RelayServer.Relay.Connect | websocket/server.js:20-21 | increments the counter in place, returns it as the new id and marks the socket OPEN, as `OnConnect` prescribes, keeping the invariant |
| RelayServer.Relay.Handle | websocket/server.js:24-138 | updates the fields and returns the sends exactly as `Dispatch` prescribes for each frame type, keeping the invariant |
| RelayServer.Relay.HandleJoin | websocket/server.js:29-46 | in place, the result `OnJoin` prescribes |
| RelayServer.Relay.HandleDraw | websocket/server.js:48-67 | in place, `push` and `shift`, the result `OnDraw` prescribes |
| RelayServer.Relay.HandleClear | websocket/server.js:69-80 | in place, the result `OnClear` prescribes |
| RelayServer.Relay.HandleRegister | websocket/server.js:82-124 | in place, with its two early exits, the result `OnRegister` prescribes |
| RelayServer.Relay.Close | websocket/server.js:140-144 | in place, the result `OnClose` prescribes, keeping the invariant |
| RelayServer.Relay.SocketClosing | websocket/server.js:154 | the socket leaves the OPEN set and nothing else changes, keeping the invariant |
| RelayServer.Relay.Broadcast | websocket/server.js:151-158 | the `forEach` loop produces exactly the sends of `Fanout`: in key order, to each OPEN key but the excluded one |
| RelayServer.Relay.BroadcastUserList | websocket/server.js:160-178 | builds the `users` frame from the roster in key order and sends it to exactly the recipients `BroadcastUsers` names |
| RelayServer.Relay.FindRegistration | websocket/server.js:101 | the search finds something exactly when some ledger entry has the email |
| Scenario.TwoPlatformsJoin | websocket/server.js:29-46 | on a fresh server, A and B join and are both in the roster and OPEN, with ids 1 and 2 |
| Scenario.FirstJoin | websocket/server.js:29-46 | the first client to join is sent an empty history, is the only roster entry, and is itself sent a roster frame whose count is 1 |
| Scenario.SecondJoin | websocket/server.js:29-46 | a second client joining is sent the history and makes a roster of two, whose frame (count 2) goes to both clients |
| Scenario.SecondJoinAnnounces | websocket/server.js:29-46 | on states: when B joins beside A, both ids are in the roster and the roster frame with count 2 goes to exactly A and B, after B is sent the history |
| Scenario.ADraws | websocket/server.js:48-67 | A's draw is recorded stamped with A's id, and the relayed record reaches B and no one else |
| Scenario.AClearsThenCJoins | websocket/server.js:69-80 | A's clear reaches only B, and C, joining afterwards, is sent an empty history |
| Scenario.AClears | websocket/server.js:69-80 | A's clear empties the history and the clear frame reaches B and no one else |
| Scenario.CJoins | websocket/server.js:37-41 | a connection joining when the history is empty is sent an empty history |
| Scenario.MalformedEmailRefused | websocket/server.js:90-98 | an address failing the check is answered with `Invalid email format` and the ledger is unchanged |
| Scenario.NotAnEmailRefused | websocket/server.js:90-98 | `"not-an-email"` is answered with `Invalid email format` |
| Scenario.SecondRegistrationRefused | websocket/server.js:100-124 | `"a@b.co"` from A succeeds and is the one ledger entry; the same address from B is refused as a duplicate |

## Left out

- The `ws` and `http` transport, `JSON.parse` and `JSON.stringify`, `server.listen` on port 8081, and the SIGTERM shutdown (lines 1-5 and 180-193). These are I/O. Frames are datatypes, and a parse failure is the `Malformed` variant.
- Asynchronous delivery and `readyState` timing. The model keeps only whether a socket is OPEN (`live`). The relay's effects are modelled as one ordered list of sends per event; delivery is not modelled. The event loop is single-threaded, so events are applied one at a time (`Run`).
- The `error` handler (lines 146-148). It only logs and changes no state.
- Console logging throughout.
- `new Date().toISOString()`. The server clock is the parameter `now`.
- JSON field types. The model gives `platform`, `email`, `color` and the username and timestamp values type `string`, and `x`, `y` and `size` type `real`. In JavaScript a field may be missing, `null`, a number or an object: `platform` may be `undefined`, and `regex.test` converts a non-string email to a string. The falsy values `0`, `false` and `null` for `username` and `timestamp` are covered only as a missing field.
- RelayProperties.RegisterKeepsValid: the unique-email invariant holds only because `email` is typed `string` here. In the code a non-string email can repeat: `{"type":"register","email":["a@b.co"]}` passes the regex (line 92), because the array converts to the string `"a@b.co"`, and it passes the duplicate check (line 101), because an array is never `===` to a string or to another array. So the code's ledger can hold the same address any number of times. The model does not capture such registrations.
- RelayServer.Relay.Handle: a handler that throws is caught at lines 135-137, leaving whatever it had already changed. Most throws come before any state change: `JSON.parse` on bad input, reading `data.type` of `null`, and the string conversion of an email object inside `regex.test`. `ws` puts a server-side socket in OPEN before it emits `connection`, so `ws.send` never meets a CONNECTING socket. The log at line 45 can throw too, but only after all of `join`'s effects, so it changes nothing. The log at line 112 is the exception. It converts `registration.platform` to a string after `registrations.push` (line 111), and a platform object with no primitive `toString` or `valueOf` makes it throw. The code then keeps the new ledger entry but sends neither `registration_success` (lines 115-117) nor `new_registration` (lines 120-123), and a retry is refused as a duplicate. The model types `platform` as a string, so `OnRegister` always sends both, and it does not capture this outcome.
- RelayProperties.ConnectGivesFreshId: ids are unbounded naturals. `clientIdCounter` is a JavaScript number, which stays exact only up to 2^53.
- Strings: Dafny characters are Unicode scalar values, while the regular expression (no `u` flag) reads UTF-16 code units. A surrogate half is neither whitespace nor `@`, so the check gives the same answer either way.
- The Umbraco API clients, the per-platform template servers (Go, Node.js, Rust, Java, .NET, Python) and the React sign-up page are not part of this model. They are I/O-bound HTTP and UI code outside the relay.
