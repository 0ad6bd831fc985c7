# Signalling relay server: a Dafny model

This project models the core of `server.js`. The server is a small signalling relay:
peers meet in named rooms and pass opaque negotiation messages to each other, so that
they can then open a direct peer-to-peer media channel. The model has three parts.

- **Room registry** (`rooms.dfy`, module `RoomRegistry`). The in-memory `rooms` map
  goes from room id to `{code, mode, createdAt}`. Three HTTP handlers use it:
  - `POST /create-room` creates or overwrites an entry;
  - `GET /room-info` describes a room;
  - `POST /validate-room` checks an access code.

  `RoomStore` is a class whose `rooms` field is the map. `CreateRoom` is a method that
  reassigns the map. `Info` and `Validate` are functions that read it. Every handler
  answers with a `Result`: either its reply body or the error status 400, 404 or 403.
  A request field is an `Option<string>`. JavaScript's falsiness test (`!room`,
  `code || null`, `mode || 'practice'`) is `Truthy`: the field is absent or `""`.
- **Upload file name** (`uploads.dfy`, module `UploadNames`). A recording is stored
  under the name `${room}-${ts}-${originalname}`. Every character outside
  `[A-Za-z0-9-_.]` is replaced by `_`. Each `char` stands for one UTF-16 code unit,
  which is what the regular expression (it has no `u` flag) works on. `Decimal` writes
  the timestamp out in decimal, as the template literal does.
- **Signalling router** (`signalling.dfy`, module `Signalling`). The socket handlers
  `join-room`, `signal` and `disconnect`. The class `Router` holds four things:
  - the live connections;
  - the transport's rooms, each an insertion-ordered set of ids (a `seq` without
    duplicates, as a JavaScript `Set` iterates);
  - each socket's `socket.data`;
  - an outbox with one `Delivery(recipients, event)` per emit call.

  The model follows socket.io as the handlers rely on it:
  - each socket is also a member of a room named after its own id;
  - `socket.to(room)` reaches the members of `room` except every member of the room
    named by the sender's id. socket.io 4 excludes the sender through that room, so
    this is the sender alone unless some session has joined a room of that name;
  - `io.to(to)` reaches every member of room `to`.

  `Valid()` is the router's invariant. It says a session is in room `r` exactly when the
  session is live and `r` is either its own id or a room it has joined since it
  connected. The ghost field `joined` records those joins.

The router reproduces what the handlers do, including these behaviours:
- `join-room` never consults the room registry.
- A second `join-room` adds the socket to another room and overwrites
  `socket.data.room`. It does not leave the first room (`JoinOnlyAdds`).
- `signal` delivers to every member of the room named `to`. This is exactly the session
  `to` only while nobody has joined a room of that name. Otherwise the whole room gets
  the message, the sender included if it is a member.
- `disconnect` sends `peer-left` only for the last room recorded. It sends nothing when
  that room is `""`, because `if (room)` treats it as falsy.

## Model

| member | source | states |
|---|---|---|
| `RoomRegistry.StoredCode` | server.js:26 | a falsy code is stored as null: the stored code is absent exactly when the supplied one is absent or empty, and otherwise it is the supplied, non-empty code |
| `RoomRegistry.StoredMode` | server.js:26 | a falsy mode falls back to the default: the supplied mode when truthy, otherwise `"practice"`; never empty |
| `RoomRegistry.RoomStore.constructor` | server.js:21 | the registry starts empty and satisfies the entry invariant |
| `RoomRegistry.RoomStore.CreateRoom` | server.js:23-28 | a missing or empty room gives 400 and leaves the map unchanged; otherwise that room's entry is replaced wholesale by `(StoredCode, StoredMode, now)`, every other entry is kept, and the invariant (non-empty keys, code null or non-empty, mode non-empty) is preserved |
| `RoomRegistry.RoomStore.Info` | server.js:30-36 | 400 exactly when the room is missing, 404 exactly when it is unknown; otherwise `requiresCode` is true exactly when a code is stored, plus the stored mode; as a function it cannot change the registry |
| `RoomRegistry.RoomStore.Validate` | server.js:38-45 | checks in order: 400 exactly when the room is missing, 404 exactly when it is unknown, 403 exactly when it has a code and the supplied code is not identical (absent included); success exactly otherwise |
| `RoomRegistry.OpenRoomAcceptsAll` | server.js:43 | a room without a code accepts any code or none |
| `RoomRegistry.CodedRoomAcceptsOnlyItsCode` | server.js:43 | a room with a code accepts exactly that code; no code at all is forbidden |
| `RoomRegistry.AccessScenario` | server.js:23-45 | a room created with code "1234" reports `requiresCode` and mode `practice`, accepts "1234", and answers 403 to "0000" and to no code |
| `UploadNames.Sanitize` | server.js:52 | same length as the input; position by position, an allowed character stays and any other becomes `_` |
| `UploadNames.SanitizeAllowed` | server.js:52 | every character of the result is in `[A-Za-z0-9-_.]` |
| `UploadNames.SanitizeKeepsAllowed` | server.js:52 | a string made only of allowed characters is unchanged |
| `UploadNames.SanitizeIdempotent` | server.js:52 | sanitising twice equals sanitising once |
| `UploadNames.SanitizeAppend` | server.js:52 | the replacement works character by character, so it distributes over concatenation |
| `UploadNames.Decimal` | server.js:51-52 | the timestamp is rendered as a non-empty string of decimal digits, all of them allowed characters, with no leading zero unless the timestamp is 0 |
| `UploadNames.DecimalValue` | server.js:51-52 | the digits `Decimal` writes denote the timestamp itself, read most significant digit first |
| `UploadNames.RoomOrUnknown` | server.js:50 | `room \|\| 'unknown'`: a truthy room is used as it is, a missing or empty one is written as `unknown`; never empty |
| `UploadNames.FileName` | server.js:50-52 | the stored name has the length of room, timestamp digits, original name and two dashes, and holds only allowed characters |
| `UploadNames.FileNameIsSafe` | server.js:50-53 | the stored name has the template's length and only allowed characters, so no `/` or `\`; it starts with the sanitised room and a dash followed by the timestamp digits; it is never `.` or `..` |
| `Signalling.Add` | server.js:66 | `socket.join` adds the id to the room's set: the elements gain exactly the id, there are still no duplicates, and the earlier order is kept as a prefix |
| `Signalling.Without` | server.js:71-72 | `filter((id) => id !== socket.id)`: the elements are exactly the input's minus the id, the id is absent, and no element repeats |
| `Signalling.WithoutIsSubsequence` | server.js:72 | the filter keeps the membership order: the peer list is a subsequence of the room's members |
| `Signalling.LeaveAll` | server.js:81-84 | before the disconnect handler runs, the session leaves every room, and rooms left empty disappear |
| `Signalling.ExceptSenderRoom` | server.js:74 | `socket.to(room)` excludes the members of the room named by the sender's id: a session is reached exactly when it is live, in `room`, not the sender, and has not joined a room named by the sender's id |
| `Signalling.JoinAnnouncement` | server.js:66-74 | after the join, `peer-joined` reaches exactly the live sessions that were already in the room, are not the joiner and have not joined a room named by the joiner's id |
| `Signalling.MembersLive` | server.js:71-74 | every member of every room is a live session, so no emit reaches a closed connection |
| `Signalling.JoinOnlyAdds` | server.js:66-67 | a join's membership update only adds: the joiner gains `room`, keeps every earlier room, and no other session moves |
| `Signalling.ConnectKeeps` | server.js:64 | a new connection placed in its own room keeps the router invariant |
| `Signalling.JoinKeeps` | server.js:65-69 | a join (membership add and `socket.data` update) keeps the router invariant |
| `Signalling.LeaveMembership` | server.js:81-84 | after the session leaves every room, a remaining session is in room `r` exactly when `r` is its own id or a room it joined |
| `Signalling.LeaveKeeps` | server.js:81-84 | leaving every room and dropping the session keeps the router invariant for the sessions that remain |
| `Signalling.Router.constructor` | server.js:10 | no connections, no rooms, an empty outbox |
| `Signalling.Router.Connect` | server.js:64 | the new session is live, in the room named by its id, with empty `socket.data` and no joined rooms; nothing is emitted |
| `Signalling.Router.Join` | server.js:65-75 | the joiner is added to `room` (no other room changes), `socket.data` becomes `(room, name, role)`, the joiner's recorded joins gain `room`; `joined` goes to the joiner alone with a peer list that holds every earlier member once and never the joiner; `peer-joined` goes to exactly the live earlier members, other than the joiner, that have not joined a room named by the joiner's id |
| `Signalling.Router.Signal` | server.js:77-79 | exactly one emit, `{from: sender, data}` with the payload unchanged, to the members of room `to`, all live; when no session has joined a room named `to`, that is `{to}` for a live `to` and nobody otherwise; no membership or session state changes |
| `Signalling.Router.Disconnect` | server.js:81-84 | the session is no longer live and is in no room, other memberships are kept; its recorded joins are dropped; with a truthy recorded room, one `peer-left` goes to exactly the remaining live members of that room that have not joined a room named by the departed id; a session that never joined (or joined `""`) emits nothing |
| `Signalling.FirstArrival` | server.js:64-75 | two sessions connect and the first joins a room: it is the room's only member, it gets `joined` with an empty peer list, and `peer-joined` reaches nobody |
| `Signalling.TwoPeerScenario` | server.js:64-85 | A then B join a room and B disconnects: A gets `joined(A, [])`, B gets `joined(B, [A])`, A gets `peer-joined(B)` and then `peer-left(B)`, and the room is left as `[A]` |

## Left out

- HTTP and Express wiring: routing, JSON body parsing, static file serving and the
  response link built with `encodeURIComponent` (server.js:16-18, 27). `CreateRoom`
  returns the room id the link is built from.
- Request fields that are not strings. A JSON number `code` would be compared with
  `!==` against a stored string, and a repeated query key gives an array. The model
  takes every field as an absent or present string.
- multer disk storage, creating the recordings directory, writing the file, and the
  `/upload` route's 400-or-URL reply (server.js:14, 47-62, apart from the name
  expression at line 52). These are file-system I/O.
- `Date.now()` (server.js:26, 51). It becomes the parameters `now` and `ts`.
- Unicode: a Dafny `char` is a Unicode scalar value, so a lone UTF-16 surrogate cannot
  be written down. Each `char` stands for one UTF-16 code unit, and the sanitiser maps
  any non-ASCII unit to `_` anyway.
- socket.io transport: framing, delivery order and guarantees, and the real adapter.
  Rooms are the `rooms` map and emits are outbox entries. Recipients are a set, because
  socket.io gives no order among the members of one broadcast.
- `Signalling.Router.Disconnect`: that socket.io takes the socket out of all its rooms
  before the `disconnect` handler runs is a modelling assumption. The handler itself
  does not remove anything. socket.io fires `disconnect` once per socket, so the method
  requires a live session. A second disconnect of the same session is therefore not
  modelled.
- `Signalling.Router.Connect`: socket.io gives every connection a fresh unique id, so
  the method requires an id that is not live.
- Payloads of `join-room` whose `room`, `name` or `role` are missing or not strings.
  The model takes strings, and the signal payload is an opaque string.
- Concurrency: Node runs one handler at a time, so the model is sequential.
- The port and the `listen` call (server.js:87-88).
