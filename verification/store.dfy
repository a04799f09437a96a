/**
 * The two pieces of shared state every handler works on: the database (tables of
 * records) and the real-time server (rooms of connected sockets, and every event it
 * has emitted so far).
 */
module Store {

  import opened Wrappers
  import opened Entities

  /** The tables the trade and dispute handlers read and write. */
  datatype Tables = Tables(trades: map<Id, Trade>, items: map<Id, Item>, issues: map<Id, Issue>)

  /**
   * The effect of one handler: its reply, the tables afterwards, and the trade snapshot
   * it emitted as `trade_status_updated` to the trade's room, if any.
   */
  datatype Step<T> = Step(reply: Reply<T>, after: Tables, emitted: Option<Trade>)

  type SocketId = string

  /** An event sent to a room, with its payload. */
  datatype Event = TradeStatusUpdated(trade: Trade) | ReceiveMessage(message: Message)

  /** One emit: the room, the event, and the sockets that were in the room at the time. */
  datatype Emission = Emission(room: Id, event: Event, to: set<SocketId>)

  /** The database. */
  class Db {
    var trades: map<Id, Trade>
    var items: map<Id, Item>
    var issues: map<Id, Issue>
    var users: map<Id, User>
    var ratings: map<Id, Rating>
    var messages: seq<Message>

    constructor ()
      ensures trades == map[] && items == map[] && issues == map[]
      ensures users == map[] && ratings == map[] && messages == []
    {
      trades, items, issues := map[], map[], map[];
      users, ratings, messages := map[], map[], [];
    }

    /** The trade, listing and issue tables as one value. */
    function Snapshot(): Tables
      reads this
    {
      Tables(trades, items, issues)
    }
  }

  /** The real-time server: room membership and the log of everything emitted. */
  class Io {
    var rooms: map<Id, set<SocketId>>
    var log: seq<Emission>

    constructor ()
      ensures rooms == map[] && log == []
    {
      rooms, log := map[], [];
    }

    /** The sockets currently in `room` (none for a room nobody joined). */
    function Members(room: Id): set<SocketId>
      reads this
    {
      if room in rooms then rooms[room] else {}
    }

    /** What a handler's step adds to the log: its snapshot, sent to the trade's room. */
    function Notices(room: Id, emitted: Option<Trade>): seq<Emission>
      reads this
    {
      if emitted.Some? then [Emission(room, TradeStatusUpdated(emitted.value), Members(room))] else []
    }

    /** `io.to(room).emit(event)`: delivered to the room's current members. */
    method Emit(room: Id, event: Event)
      modifies this
      ensures rooms == old(rooms)
      ensures log == old(log) + [Emission(room, event, old(Members(room)))]
    {
      log := log + [Emission(room, event, Members(room))];
    }
  }

  /**
   * A handler's writes to the database were exactly those of step `s`, and it answered
   * `r`: the three tables are `s.after` and users, ratings and messages are untouched.
   */
  twostate predicate Wrote<T>(db: Db, s: Step<T>, new r: Reply<T>)
    reads db
  {
    && r == s.reply
    && db.Snapshot() == s.after
    && db.users == old(db.users)
    && db.ratings == old(db.ratings)
    && db.messages == old(db.messages)
  }

  /** As `Wrote`, and the snapshot of `s`, if any, was emitted to `room`'s members. */
  twostate predicate Performed<T>(db: Db, io: Io, room: Id, s: Step<T>, new r: Reply<T>)
    reads db, io
  {
    && Wrote(db, s, r)
    && io.rooms == old(io.rooms)
    && io.log == old(io.log) + old(io.Notices(room, s.emitted))
  }
}
