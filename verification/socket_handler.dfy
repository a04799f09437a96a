/**
 * The chat relay of the real-time server: a socket joins the room named by a trade id,
 * and a message sent to a trade is persisted first and then broadcast to everyone in
 * that room, the sender included when it has joined.
 */
module SocketHandler {

  import opened Wrappers
  import opened Entities
  import opened Store

  /** join_trade: the socket enters the trade's room; nobody is asked whether it may. */
  method JoinTrade(io: Io, socket: SocketId, tradeId: Id)
    modifies io
    ensures io.rooms == old(io.rooms)[tradeId := old(io.Members(tradeId)) + {socket}]
    ensures io.log == old(io.log)
    ensures socket in io.Members(tradeId)
    ensures forall room :: old(io.Members(room)) <= io.Members(room)
  {
    io.rooms := io.rooms[tradeId := io.Members(tradeId) + {socket}];
  }

  /** The messages carried by the log's receive_message events, in emission order. */
  function Broadcasts(log: seq<Emission>): seq<Message>
    decreases |log|
  {
    if log == [] then []
    else
      var last := log[|log| - 1];
      Broadcasts(log[..|log| - 1]) + (if last.event.ReceiveMessage? then [last.event.message] else [])
  }

  /** Every receive_message event went to the room of the message's trade. */
  predicate RoomsMatch(log: seq<Emission>) {
    forall i | 0 <= i < |log| && log[i].event.ReceiveMessage? :: log[i].room == log[i].event.message.tradeId
  }

  /**
   * The relay invariant: the persisted messages are exactly the broadcast ones, in the
   * same order, and each went to its own trade's room.
   */
  predicate Relayed(messages: seq<Message>, log: seq<Emission>) {
    Broadcasts(log) == messages && RoomsMatch(log)
  }

  /** One more emission adds its message, if it carries one, at the end of the broadcasts. */
  lemma {:induction false} BroadcastsAppend(log: seq<Emission>, e: Emission)
    ensures Broadcasts(log + [e]) == Broadcasts(log) + (if e.event.ReceiveMessage? then [e.event.message] else [])
  {
    assert (log + [e])[..|log|] == log;
  }

  /**
   * send_message: persist one message with exactly the event's fields; if that succeeds
   * (all three fields are there, and the trade and the sender exist), broadcast it to
   * the room's current members. `None` is a field the event left out. A failed persist
   * is swallowed: nothing is stored and nothing emitted.
   */
  method SendMessage(db: Db, io: Io, socket: SocketId, tradeId: Option<Id>, senderId: Option<Id>,
                     content: Option<string>, now: int) returns (persisted: bool)
    modifies db, io
    ensures persisted <==> && tradeId.Some? && senderId.Some? && content.Some?
                           && tradeId.value in old(db.trades) && senderId.value in old(db.users)
    ensures persisted ==>
              var m := Message(tradeId.value, senderId.value, content.value, now);
              && db.messages == old(db.messages) + [m]
              && io.log == old(io.log) + [Emission(tradeId.value, ReceiveMessage(m), old(io.Members(tradeId.value)))]
              && (socket in old(io.Members(tradeId.value)) ==> socket in io.log[|io.log| - 1].to)
    ensures !persisted ==> db.messages == old(db.messages) && io.log == old(io.log)
    ensures db.Snapshot() == old(db.Snapshot()) && db.users == old(db.users) && db.ratings == old(db.ratings)
    ensures io.rooms == old(io.rooms)
    ensures old(Relayed(db.messages, io.log)) ==> Relayed(db.messages, io.log)
  {
    if tradeId.None? || senderId.None? || content.None? {
      return false;
    }
    var room := tradeId.value;
    if room !in db.trades || senderId.value !in db.users {
      return false;
    }
    var m := Message(room, senderId.value, content.value, now);
    db.messages := db.messages + [m];
    BroadcastsAppend(io.log, Emission(room, ReceiveMessage(m), io.Members(room)));
    io.Emit(room, ReceiveMessage(m));
    persisted := true;
  }

  /** A trade handler's status notice carries no chat message, so the relay invariant survives it. */
  lemma NoticeKeepsRelayed(messages: seq<Message>, log: seq<Emission>, room: Id, tr: Trade, to: set<SocketId>)
    requires Relayed(messages, log)
    ensures Relayed(messages, log + [Emission(room, TradeStatusUpdated(tr), to)])
  {
    BroadcastsAppend(log, Emission(room, TradeStatusUpdated(tr), to));
  }

  /** The chat messages of one trade, in order. */
  function RoomMessages(messages: seq<Message>, room: Id): (r: seq<Message>)
    ensures forall m :: m in r <==> m in messages && m.tradeId == room
    decreases |messages|
  {
    if messages == [] then []
    else
      var last := messages[|messages| - 1];
      RoomMessages(messages[..|messages| - 1], room) + (if last.tradeId == room then [last] else [])
  }

  /** What one socket received as receive_message events for one room, in order. */
  function Inbox(log: seq<Emission>, socket: SocketId, room: Id): seq<Message>
    decreases |log|
  {
    if log == [] then []
    else
      var e := log[|log| - 1];
      Inbox(log[..|log| - 1], socket, room)
        + (if e.event.ReceiveMessage? && e.room == room && socket in e.to then [e.event.message] else [])
  }

  /**
   * Broadcasts follow commit order: a socket that was in a trade's room for every
   * broadcast received exactly that trade's messages, in the order they were persisted.
   */
  lemma {:induction false} MemberSeesCommitOrder(messages: seq<Message>, log: seq<Emission>, socket: SocketId, room: Id)
    requires Relayed(messages, log)
    requires forall i | 0 <= i < |log| && log[i].room == room :: socket in log[i].to
    ensures Inbox(log, socket, room) == RoomMessages(messages, room)
    decreases |log|
  {
    if log != [] {
      var init := log[..|log| - 1];
      var e := log[|log| - 1];
      assert log == init + [e];
      BroadcastsAppend(init, e);
      assert e.event.ReceiveMessage? ==> e.room == e.event.message.tradeId;
      var m0 := Broadcasts(init);
      MemberSeesCommitOrder(m0, init, socket, room);
      if e.event.ReceiveMessage? {
        assert messages == m0 + [e.event.message];
        assert messages[..|messages| - 1] == m0;
      } else {
        assert messages == m0;
      }
    }
  }
}
