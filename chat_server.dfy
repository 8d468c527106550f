/** The socket handlers of the chat server: `join_room` puts a socket into
    the room of a group, `send_message` stores a message and then
    broadcasts the stored record to that room. The `disconnect` handler
    only logs; socket.io itself takes the socket out of every room. */
module ChatServer {
  import opened Common
  import opened MessageStore

  type SocketId = string

  /** The payload of a `send_message` event. */
  datatype SendPayload = SendPayload(groupId: ObjectId, senderId: ObjectId, content: string)

  /** One `io.to(room).emit("receive_message", message)`: the sockets that
      were in the room when it was emitted, and what they receive. */
  datatype Broadcast = Broadcast(room: ObjectId, recipients: set<SocketId>, message: Message)

  /** The sockets currently in the room of group `g`. */
  function Members(rooms: map<ObjectId, set<SocketId>>, g: ObjectId): set<SocketId>
  {
    if g in rooms then rooms[g] else {}
  }

  /** The rooms after `socket.join(g)`: the room of `g` gains `s`, no
      other room changes. */
  function Joined(rooms: map<ObjectId, set<SocketId>>, g: ObjectId, s: SocketId): (r: map<ObjectId, set<SocketId>>)
    ensures Members(r, g) == Members(rooms, g) + {s}
    ensures forall h :: h != g ==> Members(r, h) == Members(rooms, h)
    ensures r.Keys == rooms.Keys + {g}
  {
    rooms[g := Members(rooms, g) + {s}]
  }

  /** Joining twice is joining once. */
  lemma JoinIdempotent(rooms: map<ObjectId, set<SocketId>>, g: ObjectId, s: SocketId)
    ensures Joined(Joined(rooms, g, s), g, s) == Joined(rooms, g, s)
  {
  }

  /** The rooms after socket `s` has left all of them: every room loses
      `s` and keeps its other sockets. */
  function Left(rooms: map<ObjectId, set<SocketId>>, s: SocketId): (r: map<ObjectId, set<SocketId>>)
    ensures forall g :: Members(r, g) == Members(rooms, g) - {s}
    ensures r.Keys == rooms.Keys
  {
    map g | g in rooms :: rooms[g] - {s}
  }

  /** A socket that has left receives no later broadcast to any room until
      it joins again. */
  lemma LeftSocketMissesBroadcast(rooms: map<ObjectId, set<SocketId>>, s: SocketId, bs: seq<Broadcast>, m: Message, g: ObjectId)
    ensures Inbox(bs + [Broadcast(g, Members(Left(rooms, s), g), m)], s) == Inbox(bs, s)
  {
    InboxAppend(bs, Broadcast(g, Members(Left(rooms, s), g), m), s);
  }

  /** The messages socket `s` has received, in the order they were emitted. */
  function Inbox(bs: seq<Broadcast>, s: SocketId): seq<Message>
  {
    if bs == [] then []
    else Inbox(bs[..|bs| - 1], s) + (if s in bs[|bs| - 1].recipients then [bs[|bs| - 1].message] else [])
  }

  /** A new broadcast reaches exactly its recipients, at the end of their inboxes. */
  lemma InboxAppend(bs: seq<Broadcast>, b: Broadcast, s: SocketId)
    ensures Inbox(bs + [b], s) == Inbox(bs, s) + (if s in b.recipients then [b.message] else [])
  {
    assert (bs + [b])[..|bs|] == bs;
  }

  class SocketServer {
    /** The socket.io rooms, keyed by group id. */
    var rooms: map<ObjectId, set<SocketId>>
    /** Every `receive_message` broadcast, in emission order. */
    var broadcasts: seq<Broadcast>
    /** The messages of the errors caught by `send_message`. */
    var errorLog: seq<string>
    /** The sockets whose disconnection was logged. */
    var disconnectLog: seq<SocketId>
    const store: MessageCollection

    ghost predicate Valid()
      reads this, store
    {
      store.Valid()
    }

    constructor (store: MessageCollection)
      requires store.Valid()
      ensures Valid() && this.store == store
      ensures rooms == map[] && broadcasts == [] && errorLog == [] && disconnectLog == []
    {
      this.store := store;
      rooms, broadcasts, errorLog, disconnectLog := map[], [], [], [];
    }

    /** `join_room`: the socket enters the room of `groupId`; nothing is
        emitted or stored. */
    method JoinRoom(socket: SocketId, groupId: ObjectId)
      modifies this
      ensures rooms == Joined(old(rooms), groupId, socket)
      ensures broadcasts == old(broadcasts) && errorLog == old(errorLog) && disconnectLog == old(disconnectLog)
    {
      rooms := Joined(rooms, groupId, socket);
    }

    /** `send_message`: the message is written first, with exactly the
        payload's group, sender and content. Only once the write has
        returned is the stored record broadcast, to the sockets in that
        group's room and to no other socket. A failed write broadcasts
        nothing; its error is only logged. Room membership never changes. */
    method SendMessage(socket: SocketId, data: SendPayload, outcome: WriteOutcome)
      requires Valid()
      modifies this, store
      ensures Valid()
      ensures rooms == old(rooms) && disconnectLog == old(disconnectLog)
      ensures outcome.Stored? ==>
                var m := Message(|old(store.messages)|, data.groupId, data.senderId, data.content, outcome.createdAt);
                && store.messages == old(store.messages) + [m]
                && broadcasts == old(broadcasts) + [Broadcast(data.groupId, Members(rooms, data.groupId), m)]
                && errorLog == old(errorLog)
                && forall s :: Inbox(broadcasts, s) ==
                     Inbox(old(broadcasts), s) + (if s in Members(rooms, data.groupId) then [m] else [])
      ensures outcome.Failed? ==>
                && store.messages == old(store.messages)
                && broadcasts == old(broadcasts)
                && errorLog == old(errorLog) + [outcome.reason]
    {
      var created := store.Create(Draft(data.groupId, data.senderId, data.content), outcome);
      match created
      case Ok(m) =>
        var b := Broadcast(data.groupId, Members(rooms, data.groupId), m);
        forall s ensures Inbox(broadcasts + [b], s) == Inbox(broadcasts, s) + (if s in b.recipients then [m] else []) {
          InboxAppend(broadcasts, b, s);
        }
        broadcasts := broadcasts + [b];
      case Err(e) =>
        errorLog := errorLog + [e];
    }

    /** A disconnection: socket.io takes the socket out of every room it
        had joined, and the `disconnect` handler only logs. Messages and
        broadcasts are unchanged. */
    method Disconnect(socket: SocketId)
      modifies this
      ensures forall g :: Members(rooms, g) == Members(old(rooms), g) - {socket}
      ensures rooms.Keys == old(rooms).Keys
      ensures broadcasts == old(broadcasts) && errorLog == old(errorLog)
      ensures disconnectLog == old(disconnectLog) + [socket]
    {
      rooms := Left(rooms, socket);
      disconnectLog := disconnectLog + [socket];
    }
  }
}
