/** What the handlers emit. Delivery by the transport is not modelled: an
    event only records who it is addressed to and what it carries. */
module Events {
  import opened Registry

  /** A value the client sends and the server forwards without looking inside
      it: a WebRTC signal or a chat message text. */
  type Opaque = string

  /** Who an event is addressed to. */
  datatype Audience =
    /** A socket id: `socket.emit` to the caller, or `io.to(socketId)`. The
        latter reaches the room of that name, which is the socket itself and
        any socket that joined a room under its id. */
    | Socket(id: SocketId)
    /** Every socket in a room except the sender: `socket.to(room)`. */
    | RoomExceptSender(room: RoomId, sender: SocketId)
    /** Every socket in a room, the sender included: `io.to(room)`, `io.in(room)`. */
    | WholeRoom(room: RoomId)

  /** One entry of the existing-users list sent to a joiner. */
  datatype UserInfo = UserInfo(id: SocketId, name: Name)

  /** The socket.io event name together with its arguments. */
  datatype Message =
    | UserConnected(id: SocketId, name: Name)
    | ExistingUsers(users: seq<UserInfo>)
    | SignalRelay(senderId: SocketId, signal: Opaque)
    | UserDisconnected(who: string)
    | CallEnded
    | ChatBroadcast(message: Opaque, userId: string)

  datatype Event = Event(to: Audience, msg: Message)

  /** The ids a user list mentions. */
  function Ids(users: seq<UserInfo>): set<SocketId>
  {
    if users == [] then {} else {users[0].id} + Ids(users[1..])
  }

  /** No id appears twice in a user list. */
  predicate DistinctIds(users: seq<UserInfo>)
  {
    users == [] || (users[0].id !in Ids(users[1..]) && DistinctIds(users[1..]))
  }
}
