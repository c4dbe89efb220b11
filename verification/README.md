# Call relay room registry, in Dafny

This project models the room registry of a socket.io video-call relay
(`server.js`). The server keeps one table, `activeRooms`: room id to a table
of the sockets in that room, each with the display name it joined with. Five
socket events read or change it:

- `join-room`: adds the socket to the room, creating the room when needed.
  It tells the other sockets in the room about the newcomer. It sends the
  newcomer the `existing-users` list.
- `chat-message`: broadcasts the message to the socket's current room under
  the sender's display name.
- `signal`: forwards a WebRTC payload to a target socket, but only when the
  target is a member of the room.
- `disconnect` (and `disconnect-call`, which forces one): removes the socket
  from the first room that holds it. It tells the others, and deletes the room
  once it is empty.
- `end-call`: tells the room the call ended and drops the room.

Each handler is a pure function of the registry before the event
(`Handlers`). join-room, disconnect and end-call return a `Reaction`: the
registry after the event plus the list of events it emits. signal and
chat-message never change the registry, so they return only the emitted
events. An event records its audience (a socket id, a room without the
sender, or a whole room) and its message. `Lifecycle` relates the handlers to
one another.

`Session` models how `server.js` wires the handlers to a socket. Only
`join-room` is listened for from the start (server.js:18). Every `join-room`
call registers one more `chat-message`, `signal`, `disconnect`,
`disconnect-call` and `end-call` listener (server.js:39-114). Of these, only
the signal listener reads the join's room id (server.js:68). The end-call
listener takes its own room id argument, which hides the join's
(server.js:108). The chat-message and disconnect listeners do not use it. So in the model, as in the code:

- a socket that has never joined ignores every other event;
- after n joins, every incoming event other than join-room runs n listeners
  in turn (only the first disconnect-call listener acts, see "## Left out");
- a socket that joined two rooms leaves both on one disconnect, one room per
  disconnect listener.

The server state is the registry plus, per socket, the room ids of its joins
(`Session.Server`). `Session.Step` dispatches one incoming event, and
`Session.Run` folds a trace of them.

Some behaviour depends on an iteration order that the JavaScript engine or
socket.io chooses. Those orders are parameters:

- `keyOrder` is `Object.keys` of a room.
- `roomOrder` is `for (room in activeRooms)`.
- `socketRooms` is the iteration of `socket.rooms`. Inside `Session` it is the
  socket's own id followed by the rooms it joined, in join order.

The handlers are total for any order. The exactness lemmas assume an order
that lists each key once (`Enumerates`). The seat-counting lemmas assume a
`roomOrder` that lists every room (`Session.Faithful`).

A display name is `Missing` (JavaScript `undefined` or `null`) or `Text(s)`. It is
truthy when it is a non-empty string. That decides between the name and the
socket id in `user-disconnected`, and between the name and `"Unknown User"`
in a chat broadcast.

What `server.js` does not do:

- It does not reject a second `join-room` from a socket that is already in a
  room. The socket ends up in both rooms (`Lifecycle.SecondJoinKeepsFirstRoom`),
  and one disconnect later frees both (`Session.TwoJoinsOneDisconnect`).
- It does not validate room ids or names.
- It forwards chat text unchanged, with no markup stripping.
- It drops a chat whose current room id is the empty string, because it tests
  the id for truthiness before the lookup (`Handlers.Chat`).

## Model

| member | source | states |
|---|---|---|
| Handlers.ExistingUsersList | server.js:30-32 | every entry of the existing-users list is a member other than the joiner, carrying that member's stored name |
| Handlers.ExistingUsersListExact | server.js:30-32 | given a key enumeration of the room, the list names exactly the other members, each once |
| Handlers.Join | server.js:18-33 | after join-room the room exists and holds the socket under its name. An absent room is created with the socket as its only member. The room's other entries and every other room are unchanged. user-connected goes to the others. existing-users goes to the joiner, lists only earlier members with their stored names, and never lists the joiner |
| Handlers.JoinExistingUsersExact | server.js:29-33 | existing-users holds exactly the room's other members, as a set, with no repeats |
| Handlers.FirstHolding | server.js:81-82 | the for-in loop stops at the first room, in enumeration order, that holds the socket; no earlier room holds it |
| Handlers.Disconnect | server.js:78-96 | a socket in no room changes nothing and emits nothing. Otherwise the socket leaves only the first room holding it. The room is deleted exactly when the socket was its last member. All other rooms are unchanged. The remaining members get user-disconnected with the stored name, or the socket id when that name is falsy |
| Handlers.EndCall | server.js:108-114 | end-call removes the room if present and leaves every other room unchanged. An unknown room leaves the registry unchanged. call-ended is sent to the room in both cases |
| Handlers.Signal | server.js:64-76 | a signal is emitted exactly when the target is a member of the join-time room. It is addressed to the target's socket id, with the sender's id and the payload unchanged |
| Handlers.FirstOtherRoom | server.js:44-50 | the current room is the first entry of socket.rooms that is not the socket's own id-room |
| Handlers.Chat | server.js:39-61 | a chat is broadcast exactly when the current room id is non-empty and known to the registry. It goes to the whole room with the message unchanged. The sender name is the stored name if truthy, else "Unknown User" |
| Handlers.DisconnectChangesAtMostOneRoom | server.js:81-95 | each handler run changes at most one room: the loop breaks after the first room that holds the socket |
| Handlers.DisconnectOnlyRemovesSelf | server.js:81-95 | one disconnect run adds nobody and removes nobody but the leaving socket. Every other member keeps its name. No empty room is left behind |
| Handlers.DisconnectVacatesOneSeat | server.js:81-95 | when the order lists every room and the socket sits somewhere, one run frees exactly the first of its rooms in that order and keeps its other rooms |
| Handlers.DisconnectSeatCount | server.js:81-95 | with an order listing every room, one run leaves a socket with no seats unchanged and otherwise takes away exactly one of its seats |
| Session.ChatListeners | server.js:39-61 | the n chat-message listeners of a socket each send the same broadcast, or all send nothing |
| Session.SignalListeners | server.js:64-76 | a signal is forwarded exactly when the target sits in one of the rooms the sender joined, at most once per join, always to the target with the sender's id and the payload |
| Session.DisconnectListeners | server.js:78-96 | n disconnect listeners emit at most n notices, all user-disconnected from this socket to a room without it, and never add a room |
| Session.DisconnectListenersKeepOthers | server.js:78-96 | any number of disconnect listeners remove nobody but the leaving socket, keep every other member's name and leave no empty room |
| Session.DisconnectListenersUnseat | server.js:78-96 | with at least as many disconnect listeners as the socket has seats, and an order listing every room, the socket ends up in no room |
| Session.EndCallListeners | server.js:108-114 | n end-call listeners each send call-ended to the whole room; the room is gone after the first and the rest change nothing |
| Session.Step | server.js:15-115 | a socket that has not joined ignores every event but join-room. A join appends its room id to the socket's listeners. A disconnect drops all of them. Chat and signal change no state. No other socket's listeners change |
| Session.StepOnlyJoinAdds | server.js:18-24 | the only event that adds a member is join-room, and it adds the joining socket to the joined room |
| Session.StepKeepsNoEmptyRoom | server.js:18-114 | every event keeps the registry free of rooms with no members |
| Session.RunKeepsNoEmptyRoom | server.js:11-13 | the no-empty-room invariant of the registry holds after any sequence of events |
| Session.LeaveUnseats | server.js:78-103 | when no socket has more seats than listeners and the disconnect's room order lists every room, a disconnect or disconnect-call leaves the socket in no room |
| Session.JoinSeats | server.js:18-24 | a join adds at most the joined room to the joiner's seats and leaves every other socket's seats unchanged |
| Session.JoinKeepsSeatsCovered | server.js:18-24 | a join keeps every socket's seat count within its listener count |
| Session.LeaveKeepsSeatsCovered | server.js:78-103 | a disconnect keeps every socket's seat count within its listener count |
| Session.EndCallKeepsSeatsCovered | server.js:108-114 | end-call keeps every socket's seat count within its listener count |
| Session.StepKeepsSeatsCovered | server.js:18-114 | every event keeps every socket's seat count within the number of listener sets it has |
| Session.RunKeepsSeatsCovered | server.js:15-115 | along any trace whose disconnects enumerate every room, no socket sits in more rooms than it has listener sets, so every disconnect frees all its seats |
| Session.RunMembersJoined | server.js:24 | a socket is a member of a room after a trace only if it was before or the trace contains its join-room for that room |
| Session.TwoListenersLeaveTwoRooms | server.js:78-96 | two disconnect listeners take a socket out of two rooms it is alone in, and send two notices |
| Session.TwoJoinsOneDisconnect | server.js:18-96 | a socket that joins two rooms and then disconnects leaves the server as it started, after six emitted events |
| Lifecycle.DisconnectFromOnlyRoom | server.js:81-93 | a socket that sits in exactly one room is in no room after disconnect |
| Lifecycle.JoinThenDisconnectRestores | server.js:18-96 | a socket in no room that joins and then disconnects leaves the registry as it found it |
| Lifecycle.LeaveAnnouncesJoinName | server.js:83-86 | the user-disconnected notice carries the name given at join, or the socket id when that name is missing or empty |
| Lifecycle.SignalReachesJoinedTarget | server.js:64-72 | after the target joins the room, a signal bound to that room reaches it |
| Lifecycle.SignalDroppedAfterTargetLeft | server.js:64-96 | after the target disconnects from its only room, signals bound to that room are dropped |
| Lifecycle.SignalDroppedAfterEndCall | server.js:64-114 | after end-call, signals bound to the ended room are dropped |
| Lifecycle.ChatAfterJoinUsesJoinName | server.js:39-61 | a chat after join is broadcast to the joined room under the join name, or "Unknown User" |
| Lifecycle.EndCallIdempotent | server.js:108-114 | ending a call a second time changes nothing more |
| Lifecycle.SecondJoinKeepsFirstRoom | server.js:18-24 | a second join-room keeps the socket's first membership; the code does not enforce one room per socket |
| Lifecycle.TwoPartyJoinScenario | server.js:18-33 | two sockets join in turn. The second is sent existing-users naming only the first, with its name. The first is told user-connected for the second |

## Left out

- Express static serving, the HTTP server and `listen`: bootstrap and I/O.
- socket.io delivery: an event names its audience but is not delivered.
  `socket.join` is modelled only through `socket.rooms`, which `Session`
  takes to be the socket's own id followed by the rooms it joined. In the
  code, as here, end-call leaves sockets in the transport's room.
- `Socket(id)` audience: socket.io addresses it as the room named `id`. A
  socket that joined a room of that name, which join-room does not prevent,
  receives it too.
- `disconnect-call` forces a transport disconnect. Here it runs the socket's
  disconnect listeners directly. The remaining disconnect-call listeners find
  the socket closed and do nothing.
- Session.Step: a socket id that has disconnected may join again here. In
  socket.io a new connection gets a new id, so that cannot happen.
- Session.LeaveUnseats: proved only for a `roomOrder` that lists every room
  (`Session.Faithful`); the for-in loop gives that, but the order is a
  parameter here.
- JavaScript key enumeration order and `socket.rooms` order are parameters,
  not computed. In particular, integer-like keys enumerating first is not
  modelled.
- Display names other than strings or `undefined`/`null` (numbers, objects).
  Also left out: ids and room names that collide with inherited
  `Object.prototype` properties.
- Room ids and signal target ids other than strings. `activeRooms` coerces
  such a value to a string key, but `socket.join` keeps the value and joins
  each element of an array. So `socket.rooms` then no longer lists the
  registry key: a room id `["a", "b"]` is stored as `"a,b"` while the socket
  sits in transport rooms `"a"` and `"b"`, and its chats are dropped. A
  number room id 5 is a different transport room from the key `"5"`.
- Malformed event payloads: a `null` chat or signal payload throws in the
  destructuring and is not modelled. Chat messages and signals are opaque
  strings.
- `console.log` / `console.warn` logging.
