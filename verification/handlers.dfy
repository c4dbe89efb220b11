/** The socket event handlers of server.js, each as a pure transition from the
    registry before the event to the registry after it plus the events it emits.

    Where the server's behaviour depends on an iteration order the JavaScript
    engine or socket.io chooses, the order is a parameter: `keyOrder` for
    `Object.keys` of a room, `roomOrder` for `for (room in activeRooms)`, and
    `socketRooms` for the iteration of `socket.rooms`. */
module Handlers {
  import opened Registry
  import opened Events

  /** The registry after an event together with what the event emitted. */
  datatype Reaction = Reaction(next: Rooms, emitted: seq<Event>)

  /** Sender name used in a chat broadcast when the sender has no truthy name. */
  const UnknownUser: string := "Unknown User"

  // ---------------------------------------------------------------- join-room

  /** The existing-users list: the members of a room other than `self`, in the
      order `keyOrder` enumerates the room's keys, each with its stored name. */
  function ExistingUsersList(members: Members, keyOrder: seq<SocketId>, self: SocketId): (users: seq<UserInfo>)
    ensures forall u :: u in users ==> u.id != self && u.id in members && u.name == members[u.id]
    ensures Ids(users) <= set id | id in keyOrder
  {
    if keyOrder == [] then []
    else
      var rest := ExistingUsersList(members, keyOrder[1..], self);
      var id := keyOrder[0];
      if id != self && id in members then [UserInfo(id, members[id])] + rest else rest
  }

  /** When `keyOrder` is exactly a key enumeration of `keys`, the list holds
      every member of `keys` other than `self`, once each. */
  lemma {:induction false} ExistingUsersListExact(members: Members, keys: set<SocketId>, keyOrder: seq<SocketId>, self: SocketId)
    requires keys <= members.Keys
    requires Enumerates(keyOrder, keys)
    ensures Ids(ExistingUsersList(members, keyOrder, self)) == keys - {self}
    ensures DistinctIds(ExistingUsersList(members, keyOrder, self))
  {
    if keyOrder != [] {
      var id := keyOrder[0];
      var tail := keyOrder[1..];
      assert Enumerates(tail, keys - {id}) by {
        forall k ensures k in tail <==> k in keys - {id} {
          if k in tail {
            var j :| 0 <= j < |tail| && tail[j] == k;
            assert keyOrder[j + 1] == k;
          }
          if k in keys - {id} {
            assert k in keyOrder;
            var j :| 0 <= j < |keyOrder| && keyOrder[j] == k;
            assert j != 0;
            assert tail[j - 1] == k;
          }
        }
      }
      ExistingUsersListExact(members, keys - {id}, tail, self);
      var rest := ExistingUsersList(members, tail, self);
      assert id !in Ids(rest);
    }
  }

  /** join-room(room, name) from socket `self`: the socket is stored in the
      room under its name, creating the room if needed; the other members are
      told about it, and the joiner gets the list of the other members. */
  function Join(rooms: Rooms, self: SocketId, room: RoomId, name: Name, keyOrder: seq<SocketId>): (r: Reaction)
    ensures Holds(r.next, room, self) && r.next[room][self] == name
    ensures room !in rooms ==> r.next[room] == map[self := name]
    ensures r.next[room].Keys == MemberIds(rooms, room) + {self}
    ensures forall id :: Holds(rooms, room, id) && id != self ==> r.next[room][id] == rooms[room][id]
    ensures forall q :: q != room ==> !Changed(rooms, r.next, q)
    ensures |r.emitted| == 2
    ensures r.emitted[0] == Event(RoomExceptSender(room, self), UserConnected(self, name))
    ensures r.emitted[1].to == Socket(self) && r.emitted[1].msg.ExistingUsers?
    ensures forall u :: u in r.emitted[1].msg.users ==>
              u.id != self && Holds(rooms, room, u.id) && u.name == rooms[room][u.id]
  {
    var before := if room in rooms then rooms[room] else map[];
    var after := before[self := name];
    var next := rooms[room := after];
    Reaction(next, [ Event(RoomExceptSender(room, self), UserConnected(self, name)),
                     Event(Socket(self), ExistingUsers(ExistingUsersList(after, keyOrder, self))) ])
  }

  /** With a faithful key enumeration, the existing-users list sent to the
      joiner names exactly the other members of the room, once each. */
  lemma JoinExistingUsersExact(rooms: Rooms, self: SocketId, room: RoomId, name: Name, keyOrder: seq<SocketId>)
    requires Enumerates(keyOrder, MemberIds(rooms, room) + {self})
    ensures var users := Join(rooms, self, room, name, keyOrder).emitted[1].msg.users;
            Ids(users) == MemberIds(rooms, room) - {self} && DistinctIds(users)
  {
    var r := Join(rooms, self, room, name, keyOrder);
    ExistingUsersListExact(r.next[room], MemberIds(rooms, room) + {self}, keyOrder, self);
  }

  // --------------------------------------------------------------- disconnect

  /** The position in `roomOrder` of the first room that holds `self`, or
      `|roomOrder|` when none does: the `for (room in activeRooms)` loop that
      stops at the first hit. */
  function FirstHolding(rooms: Rooms, roomOrder: seq<RoomId>, self: SocketId): (k: nat)
    ensures k <= |roomOrder|
    ensures forall j :: 0 <= j < k ==> !Holds(rooms, roomOrder[j], self)
    ensures k < |roomOrder| ==> Holds(rooms, roomOrder[k], self)
  {
    if roomOrder == [] || Holds(rooms, roomOrder[0], self) then 0
    else 1 + FirstHolding(rooms, roomOrder[1..], self)
  }

  /** What the remaining members are told when `self` leaves: its stored name
      when that is truthy, else its socket id. */
  function LeaveLabel(name: Name, self: SocketId): string
  {
    if Truthy(name) then name.s else self
  }

  /** disconnect from socket `self`: the socket leaves the first room (in the
      engine's order) that holds it, the room's other members are told, and the
      room is deleted once nobody is left in it. A socket in no room changes
      nothing and emits nothing. */
  function Disconnect(rooms: Rooms, self: SocketId, roomOrder: seq<RoomId>): (r: Reaction)
    ensures r.next.Keys <= rooms.Keys
    ensures FirstHolding(rooms, roomOrder, self) == |roomOrder| ==> r.next == rooms && r.emitted == []
    ensures var k := FirstHolding(rooms, roomOrder, self);
            k < |roomOrder| ==>
              var room := roomOrder[k];
              && !Holds(r.next, room, self)
              && (room in r.next <==> rooms[room].Keys != {self})
              && (room in r.next ==> r.next[room] == rooms[room] - {self})
              && (forall q :: q != room ==> !Changed(rooms, r.next, q))
              && r.emitted == [Event(RoomExceptSender(room, self), UserDisconnected(LeaveLabel(rooms[room][self], self)))]
  {
    var k := FirstHolding(rooms, roomOrder, self);
    if k == |roomOrder| then Reaction(rooms, [])
    else
      var room := roomOrder[k];
      var left := rooms[room] - {self};
      var next := if left.Keys == {} then rooms - {room} else rooms[room := left];
      Reaction(next, [Event(RoomExceptSender(room, self), UserDisconnected(LeaveLabel(rooms[room][self], self)))])
  }

  /** One disconnect run changes at most one room: the loop stops at the
      first room that holds the socket. */
  lemma DisconnectChangesAtMostOneRoom(rooms: Rooms, self: SocketId, roomOrder: seq<RoomId>, q1: RoomId, q2: RoomId)
    requires Changed(rooms, Disconnect(rooms, self, roomOrder).next, q1)
    requires Changed(rooms, Disconnect(rooms, self, roomOrder).next, q2)
    ensures q1 == q2
  {
  }

  /** One disconnect run removes nobody but the leaving socket, leaves every
      other member's name alone, and never leaves an empty room behind. */
  lemma DisconnectOnlyRemovesSelf(rooms: Rooms, self: SocketId, roomOrder: seq<RoomId>)
    ensures var next := Disconnect(rooms, self, roomOrder).next;
            && (forall q, x :: Holds(next, q, x) ==> Holds(rooms, q, x))
            && (forall q, x :: x != self && Holds(rooms, q, x) ==> Holds(next, q, x) && next[q][x] == rooms[q][x])
            && (NoEmptyRoom(rooms) ==> NoEmptyRoom(next))
  {
    var next := Disconnect(rooms, self, roomOrder).next;
    var k := FirstHolding(rooms, roomOrder, self);
    if k < |roomOrder| {
      var room := roomOrder[k];
      forall q, x | Holds(next, q, x) ensures Holds(rooms, q, x) {
        if q != room {
          assert !Changed(rooms, next, q);
        }
      }
      forall q, x | x != self && Holds(rooms, q, x) ensures Holds(next, q, x) && next[q][x] == rooms[q][x] {
        if q != room {
          assert !Changed(rooms, next, q);
        } else {
          assert x in rooms[room].Keys;
        }
      }
      if NoEmptyRoom(rooms) {
        forall q | q in next ensures next[q] != map[] {
          if q != room {
            assert !Changed(rooms, next, q);
          } else {
            var x :| x in rooms[room].Keys && x != self;
            assert x in next[q];
          }
        }
      }
    }
  }

  /** When the order lists every room and the socket sits somewhere, one
      disconnect run frees exactly one of its seats: the first in that order. */
  lemma DisconnectVacatesOneSeat(rooms: Rooms, self: SocketId, roomOrder: seq<RoomId>)
    requires forall q :: q in rooms ==> q in roomOrder
    requires Seats(rooms, self) != {}
    ensures var k := FirstHolding(rooms, roomOrder, self);
            && k < |roomOrder| && roomOrder[k] in Seats(rooms, self)
            && Seats(Disconnect(rooms, self, roomOrder).next, self) == Seats(rooms, self) - {roomOrder[k]}
  {
    var q :| q in Seats(rooms, self);
    var i :| 0 <= i < |roomOrder| && roomOrder[i] == q;
    var k := FirstHolding(rooms, roomOrder, self);
    assert k <= i;
    var room := roomOrder[k];
    var next := Disconnect(rooms, self, roomOrder).next;
    forall p ensures p in Seats(next, self) <==> p in Seats(rooms, self) - {room} {
      if p != room {
        assert !Changed(rooms, next, p);
      }
    }
  }

  /** When the order lists every room, one disconnect run frees one seat of
      the socket if it has any, and changes nothing if it has none. */
  lemma DisconnectSeatCount(rooms: Rooms, self: SocketId, roomOrder: seq<RoomId>)
    requires forall q :: q in rooms ==> q in roomOrder
    ensures forall q :: q in Disconnect(rooms, self, roomOrder).next ==> q in roomOrder
    ensures Seats(rooms, self) == {} ==> Disconnect(rooms, self, roomOrder).next == rooms
    ensures Seats(rooms, self) != {} ==>
              |Seats(Disconnect(rooms, self, roomOrder).next, self)| == |Seats(rooms, self)| - 1
  {
    if Seats(rooms, self) == {} {
      UnseatedEverywhere(rooms, self);
    } else {
      DisconnectVacatesOneSeat(rooms, self, roomOrder);
    }
  }

  // ----------------------------------------------------------------- end-call

  /** end-call(room): every socket in the room is told the call ended, whether
      or not the registry knows the room, and the room is dropped. */
  function EndCall(rooms: Rooms, room: RoomId): (r: Reaction)
    ensures room !in r.next
    ensures forall q :: q != room ==> !Changed(rooms, r.next, q)
    ensures room !in rooms ==> r.next == rooms
    ensures r.emitted == [Event(WholeRoom(room), CallEnded)]
  {
    Reaction(rooms - {room}, [Event(WholeRoom(room), CallEnded)])
  }

  // ------------------------------------------------------------------- signal

  /** signal(targetId, signal) from `self`, whose handler was registered by a
      join of `joinedRoom`: the payload goes to the target, stamped with the
      sender's id, only when the target is a member of that room. The registry
      is never touched, which the result type already says. */
  function Signal(rooms: Rooms, self: SocketId, joinedRoom: RoomId, targetId: SocketId, signal: Opaque): (out: seq<Event>)
    ensures out != [] <==> Holds(rooms, joinedRoom, targetId)
    ensures |out| <= 1
    ensures forall e :: e in out ==> e == Event(Socket(targetId), SignalRelay(self, signal))
  {
    if Holds(rooms, joinedRoom, targetId) then [Event(Socket(targetId), SignalRelay(self, signal))] else []
  }

  // ------------------------------------------------------------- chat-message

  /** The position in `socketRooms` of the first room that is not the socket's
      own room (socket.io puts every socket in a room named by its id), or
      `|socketRooms|` when there is none. */
  function FirstOtherRoom(socketRooms: seq<RoomId>, self: SocketId): (k: nat)
    ensures k <= |socketRooms|
    ensures forall j :: 0 <= j < k ==> socketRooms[j] == self
    ensures k < |socketRooms| ==> socketRooms[k] != self
  {
    if socketRooms == [] || socketRooms[0] != self then 0
    else 1 + FirstOtherRoom(socketRooms[1..], self)
  }

  /** The name a chat message is broadcast under. */
  function SenderName(members: Members, self: SocketId): string
  {
    if self in members && Truthy(members[self]) then members[self].s else UnknownUser
  }

  /** chat-message from `self`: the message text goes unchanged to the whole of
      the socket's current room, under the sender's stored name, provided that
      room id is a non-empty string the registry knows; otherwise nothing is
      sent. A current room id of "" is never broadcast to, because the server
      tests the id for truthiness before looking it up. The registry is never
      touched. */
  function Chat(rooms: Rooms, self: SocketId, socketRooms: seq<RoomId>, message: Opaque): (out: seq<Event>)
    ensures var k := FirstOtherRoom(socketRooms, self);
            out != [] <==> k < |socketRooms| && socketRooms[k] != "" && socketRooms[k] in rooms
    ensures var k := FirstOtherRoom(socketRooms, self);
            out != [] ==>
              var room := socketRooms[k];
              && |out| == 1 && out[0].to == WholeRoom(room)
              && out[0].msg.ChatBroadcast? && out[0].msg.message == message
              && (Holds(rooms, room, self) && Truthy(rooms[room][self]) ==> out[0].msg.userId == rooms[room][self].s)
              && (!(Holds(rooms, room, self) && Truthy(rooms[room][self])) ==> out[0].msg.userId == UnknownUser)
  {
    var k := FirstOtherRoom(socketRooms, self);
    if k < |socketRooms| && socketRooms[k] != "" && socketRooms[k] in rooms then
      var room := socketRooms[k];
      [Event(WholeRoom(room), ChatBroadcast(message, SenderName(rooms[room], self)))]
    else []
  }
}
