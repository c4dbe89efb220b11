/** The server as one sequential event stream.

    Only join-room is listened for from the moment a socket connects. Each
    join-room call registers one more chat-message, signal, disconnect,
    disconnect-call and end-call listener on the socket. Only the signal
    listener reads the room id of that call; end-call takes its own room id
    argument, and chat-message and disconnect do not use it. So a socket that
    has not joined ignores every other event, and after n joins one incoming
    event runs n listeners in registration order. The server state therefore
    holds, next to the registry, the room id of each join-room every socket
    has sent. */
module Session {
  import opened Registry
  import opened Events
  import opened Handlers

  /** An incoming socket event with its arguments, plus the orders the
      JavaScript engine supplies (see module Handlers). */
  datatype Input =
    | JoinRoom(room: RoomId, name: Name, keyOrder: seq<SocketId>)
    | ChatMessage(message: Opaque)
    | SignalTo(targetId: SocketId, signal: Opaque)
    | SocketDisconnect(roomOrder: seq<RoomId>)
    /** The client's "leave call" button: the listener forces a transport
        disconnect, which runs the disconnect listeners. Further disconnect-call
        listeners find the socket already closed. */
    | DisconnectCall(roomOrder: seq<RoomId>)
    | EndCallFor(room: RoomId)

  /** An event together with the socket it came from. */
  datatype Arrival = Arrival(from: SocketId, input: Input)

  /** The registry plus, per connected socket, the room id of each join-room it
      has sent, in order: one entry per set of listeners registered. */
  datatype Server = Server(rooms: Rooms, bindings: map<SocketId, seq<RoomId>>)

  /** The server after an event together with what the event emitted. */
  datatype Transition = Transition(after: Server, emitted: seq<Event>)

  /** The room ids a socket's listeners were registered with. */
  function Bindings(sv: Server, id: SocketId): seq<RoomId>
  {
    if id in sv.bindings then sv.bindings[id] else []
  }

  /** A freshly started server: no rooms, no listeners. */
  const Start: Server := Server(map[], map[])

  // ------------------------------------------------ listeners run in turn

  /** `n` chat-message listeners run in turn; they all see the same registry
      and the same socket rooms, so each sends the same broadcast. */
  function ChatListeners(rooms: Rooms, self: SocketId, socketRooms: seq<RoomId>, message: Opaque, n: nat): (out: seq<Event>)
    ensures |out| == if Chat(rooms, self, socketRooms, message) == [] then 0 else n
    ensures forall e :: e in out ==> e in Chat(rooms, self, socketRooms, message)
  {
    if n == 0 then [] else Chat(rooms, self, socketRooms, message) + ChatListeners(rooms, self, socketRooms, message, n - 1)
  }

  /** The signal listeners, one per room id in `joined`: each forwards the
      signal when the target is a member of its own room. */
  function SignalListeners(rooms: Rooms, self: SocketId, joined: seq<RoomId>, targetId: SocketId, signal: Opaque): (out: seq<Event>)
    ensures out != [] <==> exists room :: room in joined && Holds(rooms, room, targetId)
    ensures |out| <= |joined|
    ensures forall e :: e in out ==> e == Event(Socket(targetId), SignalRelay(self, signal))
  {
    if joined == [] then []
    else
      var rest := SignalListeners(rooms, self, joined[1..], targetId, signal);
      assert Holds(rooms, joined[0], targetId) ==> joined[0] in joined;
      assert forall room :: room in joined[1..] ==> room in joined;
      assert forall room :: room in joined ==> room == joined[0] || room in joined[1..];
      Signal(rooms, self, joined[0], targetId, signal) + rest
  }

  /** `n` disconnect listeners run in turn, each a disconnect handler run on
      the registry the previous one left. */
  function DisconnectListeners(rooms: Rooms, self: SocketId, roomOrder: seq<RoomId>, n: nat): (r: Reaction)
    ensures n == 0 ==> r == Reaction(rooms, [])
    ensures r.next.Keys <= rooms.Keys
    ensures |r.emitted| <= n
    ensures forall e :: e in r.emitted ==> e.msg.UserDisconnected? && e.to.RoomExceptSender? && e.to.sender == self
  {
    if n == 0 then Reaction(rooms, [])
    else
      var first := Disconnect(rooms, self, roomOrder);
      var rest := DisconnectListeners(first.next, self, roomOrder, n - 1);
      Reaction(rest.next, first.emitted + rest.emitted)
  }

  /** However many disconnect listeners run, they remove nobody but the
      leaving socket, keep every other member's name, and leave no empty room. */
  lemma {:induction false} DisconnectListenersKeepOthers(rooms: Rooms, self: SocketId, roomOrder: seq<RoomId>, n: nat)
    ensures var next := DisconnectListeners(rooms, self, roomOrder, n).next;
            && (forall q, x :: Holds(next, q, x) ==> Holds(rooms, q, x))
            && (forall q, x :: x != self && Holds(rooms, q, x) ==> Holds(next, q, x) && next[q][x] == rooms[q][x])
            && (NoEmptyRoom(rooms) ==> NoEmptyRoom(next))
  {
    if n > 0 {
      var first := Disconnect(rooms, self, roomOrder);
      DisconnectOnlyRemovesSelf(rooms, self, roomOrder);
      DisconnectListenersKeepOthers(first.next, self, roomOrder, n - 1);
    }
  }

  /** With at least as many disconnect listeners as the socket has seats, and
      an order that lists every room, the socket ends up in no room. */
  lemma {:induction false} DisconnectListenersUnseat(rooms: Rooms, self: SocketId, roomOrder: seq<RoomId>, n: nat)
    requires forall q :: q in rooms ==> q in roomOrder
    requires |Seats(rooms, self)| <= n
    ensures Unseated(DisconnectListeners(rooms, self, roomOrder, n).next, self)
  {
    if n > 0 {
      var first := Disconnect(rooms, self, roomOrder);
      DisconnectSeatCount(rooms, self, roomOrder);
      DisconnectListenersUnseat(first.next, self, roomOrder, n - 1);
    }
  }

  /** `n` end-call listeners run in turn: every one tells the room the call
      ended, the first drops the room and the rest find it gone. */
  function EndCallListeners(rooms: Rooms, room: RoomId, n: nat): (r: Reaction)
    ensures n == 0 ==> r == Reaction(rooms, [])
    ensures n > 0 ==> r.next == EndCall(rooms, room).next
    ensures |r.emitted| == n
    ensures forall e :: e in r.emitted ==> e == Event(WholeRoom(room), CallEnded)
  {
    if n == 0 then Reaction(rooms, [])
    else
      var first := EndCall(rooms, room);
      var rest := EndCallListeners(first.next, room, n - 1);
      assert EndCall(first.next, room).next == first.next;
      Reaction(rest.next, first.emitted + rest.emitted)
  }

  // ------------------------------------------------------------- dispatch

  /** A socket's disconnect: its listeners run and the socket is gone. */
  function Leave(sv: Server, id: SocketId, roomOrder: seq<RoomId>): Transition
  {
    var r := DisconnectListeners(sv.rooms, id, roomOrder, |Bindings(sv, id)|);
    Transition(Server(r.next, sv.bindings - {id}), r.emitted)
  }

  /** Dispatch one arrival to the listeners its socket has. */
  function Step(sv: Server, a: Arrival): (t: Transition)
    ensures a.from !in sv.bindings && !a.input.JoinRoom? ==> t == Transition(sv, [])
    ensures a.input.JoinRoom? ==> Bindings(t.after, a.from) == Bindings(sv, a.from) + [a.input.room]
    ensures a.input.SocketDisconnect? || a.input.DisconnectCall? ==> a.from !in t.after.bindings
    ensures forall id :: id != a.from ==> Bindings(t.after, id) == Bindings(sv, id)
    ensures a.input.ChatMessage? || a.input.SignalTo? ==> t.after == sv
  {
    var joined := Bindings(sv, a.from);
    match a.input
    case JoinRoom(room, name, keyOrder) =>
      var r := Join(sv.rooms, a.from, room, name, keyOrder);
      Transition(Server(r.next, sv.bindings[a.from := joined + [room]]), r.emitted)
    case ChatMessage(message) =>
      Transition(sv, ChatListeners(sv.rooms, a.from, [a.from] + joined, message, |joined|))
    case SignalTo(targetId, signal) =>
      Transition(sv, SignalListeners(sv.rooms, a.from, joined, targetId, signal))
    case SocketDisconnect(roomOrder) => Leave(sv, a.from, roomOrder)
    case DisconnectCall(roomOrder) => Leave(sv, a.from, roomOrder)
    case EndCallFor(room) =>
      var r := EndCallListeners(sv.rooms, room, |joined|);
      Transition(Server(r.next, sv.bindings), r.emitted)
  }

  /** Process a trace in order; the emitted events are concatenated in the
      order they were produced. */
  function Run(sv: Server, trace: seq<Arrival>): Transition
    decreases |trace|
  {
    if trace == [] then Transition(sv, [])
    else
      var first := Step(sv, trace[0]);
      var rest := Run(first.after, trace[1..]);
      Transition(rest.after, first.emitted + rest.emitted)
  }

  // ------------------------------------------------------------ invariants

  /** Only join-room adds a member, and only the joining socket to its room. */
  lemma StepOnlyJoinAdds(sv: Server, a: Arrival, q: RoomId, x: SocketId)
    requires Holds(Step(sv, a).after.rooms, q, x)
    ensures Holds(sv.rooms, q, x) || (a.input.JoinRoom? && q == a.input.room && x == a.from)
  {
    if a.input.SocketDisconnect? || a.input.DisconnectCall? {
      DisconnectListenersKeepOthers(sv.rooms, a.from, a.input.roomOrder, |Bindings(sv, a.from)|);
    }
  }

  /** Every event keeps the registry free of empty rooms. */
  lemma StepKeepsNoEmptyRoom(sv: Server, a: Arrival)
    requires NoEmptyRoom(sv.rooms)
    ensures NoEmptyRoom(Step(sv, a).after.rooms)
  {
    if a.input.SocketDisconnect? || a.input.DisconnectCall? {
      DisconnectListenersKeepOthers(sv.rooms, a.from, a.input.roomOrder, |Bindings(sv, a.from)|);
    }
  }

  /** The registry invariant holds after any trace that starts from a
      registry satisfying it, the empty registry included. */
  lemma {:induction false} RunKeepsNoEmptyRoom(sv: Server, trace: seq<Arrival>)
    requires NoEmptyRoom(sv.rooms)
    ensures NoEmptyRoom(Run(sv, trace).after.rooms)
    decreases |trace|
  {
    if trace != [] {
      StepKeepsNoEmptyRoom(sv, trace[0]);
      RunKeepsNoEmptyRoom(Step(sv, trace[0]).after, trace[1..]);
    }
  }

  /** The engine's guarantee for one arrival: a disconnect's for-in loop
      enumerates every room of the registry. */
  ghost predicate Faithful(sv: Server, a: Arrival)
  {
    a.input.SocketDisconnect? || a.input.DisconnectCall? ==>
      forall q :: q in sv.rooms ==> q in a.input.roomOrder
  }

  /** Every arrival of a trace is faithful to the server it arrives at. */
  ghost predicate FaithfulRun(sv: Server, trace: seq<Arrival>)
    decreases |trace|
  {
    trace == [] || (Faithful(sv, trace[0]) && FaithfulRun(Step(sv, trace[0]).after, trace[1..]))
  }

  /** No socket sits in more rooms than it has sets of listeners; in
      particular a socket with no listeners sits nowhere. */
  ghost predicate SeatsCovered(sv: Server)
  {
    forall id :: |Seats(sv.rooms, id)| <= |Bindings(sv, id)|
  }

  lemma SubsetCard(a: set<RoomId>, b: set<RoomId>)
    requires a <= b
    ensures |a| <= |b|
  {
    assert b == a + (b - a);
  }

  /** A disconnect, run through all of the socket's listeners, leaves it in no
      room, when every socket's seats are covered by its listeners. */
  lemma LeaveUnseats(sv: Server, a: Arrival)
    requires SeatsCovered(sv) && Faithful(sv, a)
    requires a.input.SocketDisconnect? || a.input.DisconnectCall?
    ensures Unseated(Step(sv, a).after.rooms, a.from)
  {
    assert |Seats(sv.rooms, a.from)| <= |Bindings(sv, a.from)|;
    DisconnectListenersUnseat(sv.rooms, a.from, a.input.roomOrder, |Bindings(sv, a.from)|);
  }

  /** A join adds at most the joined room to the joiner's seats and leaves
      everybody else's seats alone. */
  lemma JoinSeats(rooms: Rooms, self: SocketId, room: RoomId, name: Name, keyOrder: seq<SocketId>, id: SocketId)
    ensures id == self ==> Seats(Join(rooms, self, room, name, keyOrder).next, id) <= Seats(rooms, id) + {room}
    ensures id != self ==> Seats(Join(rooms, self, room, name, keyOrder).next, id) == Seats(rooms, id)
  {
  }

  lemma JoinKeepsSeatsCovered(sv: Server, a: Arrival)
    requires SeatsCovered(sv) && a.input.JoinRoom?
    ensures SeatsCovered(Step(sv, a).after)
  {
    var t := Step(sv, a);
    forall id ensures |Seats(t.after.rooms, id)| <= |Bindings(t.after, id)| {
      assert |Seats(sv.rooms, id)| <= |Bindings(sv, id)|;
      JoinSeats(sv.rooms, a.from, a.input.room, a.input.name, a.input.keyOrder, id);
      if id == a.from {
        SubsetCard(Seats(t.after.rooms, id), Seats(sv.rooms, id) + {a.input.room});
      }
    }
  }

  lemma LeaveKeepsSeatsCovered(sv: Server, a: Arrival)
    requires SeatsCovered(sv) && Faithful(sv, a)
    requires a.input.SocketDisconnect? || a.input.DisconnectCall?
    ensures SeatsCovered(Step(sv, a).after)
  {
    var t := Step(sv, a);
    forall id ensures |Seats(t.after.rooms, id)| <= |Bindings(t.after, id)| {
      if id == a.from {
        LeaveUnseats(sv, a);
      } else {
        assert |Seats(sv.rooms, id)| <= |Bindings(sv, id)|;
        DisconnectListenersKeepOthers(sv.rooms, a.from, a.input.roomOrder, |Bindings(sv, a.from)|);
        assert Seats(t.after.rooms, id) <= Seats(sv.rooms, id);
        SubsetCard(Seats(t.after.rooms, id), Seats(sv.rooms, id));
      }
    }
  }

  lemma EndCallKeepsSeatsCovered(sv: Server, a: Arrival)
    requires SeatsCovered(sv) && a.input.EndCallFor?
    ensures SeatsCovered(Step(sv, a).after)
  {
    var t := Step(sv, a);
    forall id ensures |Seats(t.after.rooms, id)| <= |Bindings(t.after, id)| {
      assert |Seats(sv.rooms, id)| <= |Bindings(sv, id)|;
      assert Seats(t.after.rooms, id) <= Seats(sv.rooms, id);
      SubsetCard(Seats(t.after.rooms, id), Seats(sv.rooms, id));
    }
  }

  /** Every faithful event keeps every socket's seats covered by its listeners. */
  lemma StepKeepsSeatsCovered(sv: Server, a: Arrival)
    requires SeatsCovered(sv) && Faithful(sv, a)
    ensures SeatsCovered(Step(sv, a).after)
  {
    match a.input
    case JoinRoom(_, _, _) => JoinKeepsSeatsCovered(sv, a);
    case SocketDisconnect(_) => LeaveKeepsSeatsCovered(sv, a);
    case DisconnectCall(_) => LeaveKeepsSeatsCovered(sv, a);
    case EndCallFor(_) => EndCallKeepsSeatsCovered(sv, a);
    case ChatMessage(_) =>
    case SignalTo(_, _) =>
  }

  /** From a fresh server, along any faithful trace, every socket's seats stay
      covered by its listeners; so every disconnect frees all of its seats. */
  lemma {:induction false} RunKeepsSeatsCovered(sv: Server, trace: seq<Arrival>)
    requires SeatsCovered(sv) && FaithfulRun(sv, trace)
    ensures SeatsCovered(Run(sv, trace).after)
    decreases |trace|
  {
    if trace != [] {
      StepKeepsSeatsCovered(sv, trace[0]);
      RunKeepsSeatsCovered(Step(sv, trace[0]).after, trace[1..]);
    }
  }

  /** The (room, socket) pairs a trace's join-room events ask for. */
  function Joins(trace: seq<Arrival>): set<(RoomId, SocketId)>
    decreases |trace|
  {
    if trace == [] then {}
    else
      var here := if trace[0].input.JoinRoom? then {(trace[0].input.room, trace[0].from)} else {};
      here + Joins(trace[1..])
  }

  /** A socket is a member of a room after a trace only if it already was one
      before, or the trace holds its join-room for that room: no other event
      adds members. */
  lemma {:induction false} RunMembersJoined(sv: Server, trace: seq<Arrival>, room: RoomId, id: SocketId)
    requires Holds(Run(sv, trace).after.rooms, room, id)
    ensures Holds(sv.rooms, room, id) || (room, id) in Joins(trace)
    decreases |trace|
  {
    if trace != [] {
      var mid := Step(sv, trace[0]).after;
      RunMembersJoined(mid, trace[1..], room, id);
      if Holds(mid.rooms, room, id) && !Holds(sv.rooms, room, id) {
        StepOnlyJoinAdds(sv, trace[0], room, id);
        assert (room, id) in Joins(trace);
      }
    }
  }

  /** Two disconnect listeners take a socket out of both rooms it sits in
      alone, one room each, and announce each departure. */
  lemma TwoListenersLeaveTwoRooms(s: SocketId, r1: RoomId, r2: RoomId, name: Name)
    requires r1 != r2
    ensures var r := DisconnectListeners(map[r1 := map[s := name], r2 := map[s := name]], s, [r1, r2], 2);
            r.next == map[] && |r.emitted| == 2
  {
    var both := map[r1 := map[s := name], r2 := map[s := name]];
    var d1 := Disconnect(both, s, [r1, r2]);
    assert FirstHolding(both, [r1, r2], s) == 0;
    assert d1.next == map[r2 := map[s := name]];
    var d2 := Disconnect(d1.next, s, [r1, r2]);
    assert FirstHolding(d1.next, [r1, r2], s) == 1;
    assert d2.next == map[];
    assert DisconnectListeners(d1.next, s, [r1, r2], 1) == Reaction(map[], d2.emitted + []);
  }

  /** A socket that joins two rooms and then disconnects leaves both: its two
      disconnect listeners each free one seat. */
  lemma TwoJoinsOneDisconnect(s: SocketId, r1: RoomId, r2: RoomId, name: Name)
    requires r1 != r2
    ensures var trace := [Arrival(s, JoinRoom(r1, name, [s])), Arrival(s, JoinRoom(r2, name, [s])),
                          Arrival(s, SocketDisconnect([r1, r2]))];
            && Run(Start, trace).after == Start
            && |Run(Start, trace).emitted| == 6
  {
    var a1, a2, a3 := Arrival(s, JoinRoom(r1, name, [s])), Arrival(s, JoinRoom(r2, name, [s])),
                      Arrival(s, SocketDisconnect([r1, r2]));
    var t1 := Step(Start, a1);
    assert [] + [r1] == [r1];
    assert t1.after == Server(map[r1 := map[s := name]], map[s := [r1]]);
    var t2 := Step(t1.after, a2);
    assert [r1] + [r2] == [r1, r2];
    assert t2.after == Server(map[r1 := map[s := name], r2 := map[s := name]], map[s := [r1, r2]]);
    TwoListenersLeaveTwoRooms(s, r1, r2, name);
    var t3 := Step(t2.after, a3);
    assert t3.after == Start && |t3.emitted| == 2;
    var trace := [a1, a2, a3];
    assert trace[1..] == [a2, a3] && [a2, a3][1..] == [a3] && [a3][1..] == [];
    assert Run(t2.after, [a3]) == Transition(Start, t3.emitted);
  }
}
