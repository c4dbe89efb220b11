/** How the handlers relate to one another over a participant's lifetime:
    joining and leaving undo each other, membership gates signals, a chat uses
    the name the sender joined with, and ending a call is final. */
module Lifecycle {
  import opened Registry
  import opened Events
  import opened Handlers

  /** A socket that sits in exactly one room leaves it on disconnect, whatever
      the engine's key order, as long as that order lists the room. */
  lemma DisconnectFromOnlyRoom(rooms: Rooms, self: SocketId, room: RoomId, roomOrder: seq<RoomId>)
    requires Holds(rooms, room, self)
    requires forall q :: Holds(rooms, q, self) ==> q == room
    requires room in roomOrder
    ensures roomOrder[FirstHolding(rooms, roomOrder, self)] == room
    ensures Unseated(Disconnect(rooms, self, roomOrder).next, self)
  {
    var k := FirstHolding(rooms, roomOrder, self);
    var i :| 0 <= i < |roomOrder| && roomOrder[i] == room;
    assert k <= i && roomOrder[k] == room;
    var next := Disconnect(rooms, self, roomOrder).next;
    forall q | q in next ensures self !in next[q] {
      if q != room {
        assert !Changed(rooms, next, q);
        assert !Holds(rooms, q, self);
      }
    }
  }

  /** A socket that is in no room and joins one, then disconnects, leaves the
      registry exactly as it found it: the room it created is deleted again,
      or the room it entered gets back its old member table. */
  lemma JoinThenDisconnectRestores(rooms: Rooms, self: SocketId, room: RoomId, name: Name,
                                   keyOrder: seq<SocketId>, roomOrder: seq<RoomId>)
    requires NoEmptyRoom(rooms)
    requires Unseated(rooms, self)
    requires room in roomOrder
    ensures var joined := Join(rooms, self, room, name, keyOrder).next;
            Disconnect(joined, self, roomOrder).next == rooms
  {
    UnseatedEverywhere(rooms, self);
    var joined := Join(rooms, self, room, name, keyOrder).next;
    DisconnectFromOnlyRoom(joined, self, room, roomOrder);
    var after := Disconnect(joined, self, roomOrder).next;
    if room in rooms {
      assert rooms[room] != map[];
      assert joined[room].Keys != {self};
      assert after[room] == rooms[room];
    }
    forall q | q in rooms ensures q in after && after[q] == rooms[q] {
    }
    assert after.Keys == rooms.Keys;
  }

  /** The other members are told the name the socket joined with, or its id
      when that name is missing or empty. */
  lemma LeaveAnnouncesJoinName(rooms: Rooms, self: SocketId, room: RoomId, name: Name,
                               keyOrder: seq<SocketId>, roomOrder: seq<RoomId>)
    requires Unseated(rooms, self)
    requires room in roomOrder
    ensures var joined := Join(rooms, self, room, name, keyOrder).next;
            Disconnect(joined, self, roomOrder).emitted
              == [Event(RoomExceptSender(room, self), UserDisconnected(if name.Text? && name.s != "" then name.s else self))]
  {
    UnseatedEverywhere(rooms, self);
  }

  /** Once a socket has joined a room, a signal addressed to it from a handler
      bound to that room is delivered, stamped with the sender's id. */
  lemma SignalReachesJoinedTarget(rooms: Rooms, target: SocketId, room: RoomId, name: Name,
                                  keyOrder: seq<SocketId>, sender: SocketId, signal: Opaque)
    ensures var joined := Join(rooms, target, room, name, keyOrder).next;
            Signal(joined, sender, room, target, signal) == [Event(Socket(target), SignalRelay(sender, signal))]
  {
  }

  /** After the target has disconnected from its only room, signals to it from
      a handler bound to that room are dropped. */
  lemma SignalDroppedAfterTargetLeft(rooms: Rooms, target: SocketId, room: RoomId, roomOrder: seq<RoomId>,
                                     sender: SocketId, signal: Opaque)
    requires Holds(rooms, room, target)
    requires forall q :: Holds(rooms, q, target) ==> q == room
    requires room in roomOrder
    ensures Signal(Disconnect(rooms, target, roomOrder).next, sender, room, target, signal) == []
  {
  }

  /** After end-call, every signal handler bound to the ended room drops its
      signals, until someone joins that room again. */
  lemma SignalDroppedAfterEndCall(rooms: Rooms, room: RoomId, sender: SocketId, target: SocketId, signal: Opaque)
    ensures Signal(EndCall(rooms, room).next, sender, room, target, signal) == []
  {
  }

  /** A socket whose current room is the one it just joined, under a non-empty
      room id, has its chat broadcast to that whole room under its join name,
      or under "Unknown User" when that name is missing or empty. */
  lemma ChatAfterJoinUsesJoinName(rooms: Rooms, self: SocketId, room: RoomId, name: Name,
                                  keyOrder: seq<SocketId>, socketRooms: seq<RoomId>, message: Opaque)
    requires room != ""
    requires FirstOtherRoom(socketRooms, self) < |socketRooms|
    requires socketRooms[FirstOtherRoom(socketRooms, self)] == room
    ensures var joined := Join(rooms, self, room, name, keyOrder).next;
            Chat(joined, self, socketRooms, message)
              == [Event(WholeRoom(room), ChatBroadcast(message, if name.Text? && name.s != "" then name.s else UnknownUser))]
  {
  }

  /** Ending a call twice leaves the registry as ending it once does. */
  lemma EndCallIdempotent(rooms: Rooms, room: RoomId)
    ensures EndCall(EndCall(rooms, room).next, room).next == EndCall(rooms, room).next
  {
  }

  /** join-room does not stop a socket from being in two rooms at once: joining
      a second room keeps the first membership. */
  lemma SecondJoinKeepsFirstRoom(rooms: Rooms, self: SocketId, room1: RoomId, room2: RoomId, name1: Name, name2: Name,
                                 order1: seq<SocketId>, order2: seq<SocketId>)
    requires room1 != room2
    ensures var once := Join(rooms, self, room1, name1, order1).next;
            var twice := Join(once, self, room2, name2, order2).next;
            Holds(twice, room1, self) && Holds(twice, room2, self) && twice[room1][self] == name1
  {
  }

  /** Two participants join an empty registry: the second is told about the
      first, by id and name, and the first is told about the second. */
  lemma TwoPartyJoinScenario(a: SocketId, b: SocketId, room: RoomId)
    requires a != b
    ensures var first := Join(map[], a, room, Text("Alice"), [a]);
            var second := Join(first.next, b, room, Text("Bob"), [a, b]);
            && first.emitted[1].msg.users == []
            && second.emitted[0] == Event(RoomExceptSender(room, b), UserConnected(b, Text("Bob")))
            && second.emitted[1] == Event(Socket(b), ExistingUsers([UserInfo(a, Text("Alice"))]))
            && second.next == map[room := map[a := Text("Alice"), b := Text("Bob")]]
  {
  }
}
