/** The room registry of the call relay: a table from room id to the sockets in
    that room, each with the display name it joined with.

    The server keeps this table as a plain object of plain objects, so a room is
    present exactly when its key is present, and a socket is a member exactly
    when its id is a key of the room's object. */
module Registry {

  type RoomId = string
  type SocketId = string

  /** The display name a client passed to join-room. The client may omit it
      or send null, in which case the server stores JavaScript's undefined or
      null: that is Missing. */
  datatype Name = Missing | Text(s: string)

  /** JavaScript truthiness of a stored display name: undefined, null and the
      empty string are falsy, every other string is truthy. */
  predicate Truthy(n: Name)
  {
    n.Text? && n.s != ""
  }

  /** The members of one room: socket id to display name. */
  type Members = map<SocketId, Name>

  /** The whole registry: room id to that room's members. */
  type Rooms = map<RoomId, Members>

  /** Room `room` is present and socket `id` is one of its members. */
  predicate Holds(rooms: Rooms, room: RoomId, id: SocketId)
  {
    room in rooms && id in rooms[room]
  }

  /** The ids of the members of `room`, or none when the room is absent. */
  function MemberIds(rooms: Rooms, room: RoomId): set<SocketId>
  {
    if room in rooms then rooms[room].Keys else {}
  }

  /** The registry invariant: a room with no members is never present. */
  predicate NoEmptyRoom(rooms: Rooms)
  {
    forall room :: room in rooms ==> rooms[room] != map[]
  }

  /** The rooms that hold socket `id`. */
  function Seats(rooms: Rooms, id: SocketId): set<RoomId>
  {
    set room | room in rooms && id in rooms[room]
  }

  /** Socket `id` is a member of no room at all. */
  predicate Unseated(rooms: Rooms, id: SocketId)
  {
    Seats(rooms, id) == {}
  }

  /** An unseated socket is absent from every room's member table. */
  lemma UnseatedEverywhere(rooms: Rooms, id: SocketId)
    requires Unseated(rooms, id)
    ensures forall room :: room in rooms ==> id !in rooms[room]
  {
    forall room | room in rooms ensures id !in rooms[room] {
      assert room !in Seats(rooms, id);
    }
  }

  /** Room `room` differs between two registries: it appeared, disappeared,
      or its member table changed. */
  predicate Changed(before: Rooms, after: Rooms, room: RoomId)
  {
    || (room in before) != (room in after)
    || (room in before && room in after && before[room] != after[room])
  }

  /** `order` lists every element of `keys` exactly once and nothing else: the
      shape of the JavaScript engine's enumeration of an object's keys. */
  ghost predicate Enumerates<K(!new)>(order: seq<K>, keys: set<K>)
  {
    && (forall i, j :: 0 <= i < j < |order| ==> order[i] != order[j])
    && (forall k :: k in order <==> k in keys)
  }
}
