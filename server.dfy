/** The replay rule of necsus/server.py: where a viewer joining a room starts its replay, and
    whether it is first told to clear what it shows; and how the websocket endpoint subscribes
    to and unsubscribes from the broker. */
module Server {
  import opened Values
  import Db
  import Broker
  import Events
  import EventProps

  /** `int(text)`, keeping -1 when int() raises. */
  function SinceText(text: string): (since: int)
    ensures ParseInt(text).Some? ==> since == ParseInt(text).value
    ensures ParseInt(text).None? ==> since == -1
  {
    match ParseInt(text)
    case None => -1
    case Some(n) => n
  }

  /** The cursor of `WebSocketRoom.on_connect`: `int(params.get('since', -1))`, -1 when
      that raises. */
  function SocketSince(param: Option<string>): (since: int)
    ensures param.None? ==> since == -1
    ensures param.Some? ==> since == SinceText(param.value)
  {
    match param
    case None => -1
    case Some(text) => SinceText(text)
  }

  /** The cursor of `ApiMessages.get`: `int(params.get('since', '-1'))`, -1 when that raises. */
  function ApiSince(param: Option<string>): int {
    SinceText(match param case None => "-1" case Some(text) => text)
  }

  /** The two endpoints read the same cursor from the same parameter: -1 when it is absent
      or not an integer. */
  lemma SinceDefaultsAgree(param: Option<string>)
    ensures ApiSince(param) == SocketSince(param)
    ensures ApiSince(param) == -1 <==> param.None? || ParseInt(param.value).None? || ParseInt(param.value) == Some(-1)
  {
    assert IntToString(-1) == "-1";
    ParseIntOfIntToString(-1);
  }

  /** A cursor written out as an integer is read back as that integer. */
  lemma SinceOfInt(i: int)
    ensures SocketSince(Some(IntToString(i))) == i && ApiSince(Some(IntToString(i))) == i
  {
    ParseIntOfIntToString(i);
  }

  /** What `GET /api/messages` answers. */
  datatype ApiReply = BadRequest(message: string) | Messages(rows: seq<Row>)

  /** `ApiMessages.get`: the room is required; the answer is the room's messages after the
      cursor. */
  function ApiMessages(rows: seq<Row>, room: Option<string>, since: Option<string>): (r: ApiReply)
    ensures r.BadRequest? <==> room.None?
    ensures r.Messages? ==> forall x :: x in r.rows <==>
      x in rows && Db.InRoom(x, Str(room.value)) && Db.IdOf(x) > ApiSince(since)
    ensures r.Messages? && Db.IdsAscending(rows) ==> Db.IdsAscending(r.rows)
  {
    match room
    case None => BadRequest("The room name is required.")
    case Some(name) => Messages(Db.Since(rows, name, ApiSince(since)))
  }

  /** Where a joining viewer's replay starts, and whether it is told to clear first. */
  datatype Cursor = Cursor(shouldClear: bool, since: int)

  /** The rule of `on_connect`: a room's clear marker at or after the requested cursor
      means the viewer clears and replays from the marker; otherwise it replays from the
      requested cursor. A marker that is neither None nor an int cannot be compared. */
  function ReplayCursor(since: int, marker: Option<Value>): (r: Result<Cursor>)
    ensures r.Raised? <==> marker.Some? && marker.value != PyNone && !marker.value.Int?
    ensures r.Raised? ==> r.error == TypeError
    ensures r.Ok? ==> (r.value.shouldClear <==> marker.Some? && marker.value.Int? && marker.value.i >= since)
    ensures r.Ok? ==> r.value.since >= since
    ensures r.Ok? && marker.Some? && marker.value.Int? ==> r.value.since >= marker.value.i
    ensures r.Ok? ==> r.value.since == since || (marker.Some? && marker.value.Int? && r.value.since == marker.value.i)
  {
    match marker
    case None => Ok(Cursor(false, since))
    case Some(PyNone) => Ok(Cursor(false, since))
    case Some(Int(k)) => if k >= since then Ok(Cursor(true, k)) else Ok(Cursor(false, since))
    case Some(_) => Raised(TypeError)
  }

  /** The replay a viewer gets is exactly the room's messages after both the requested
      cursor and the room's clear marker. */
  lemma ReplayAfterMarker(rows: seq<Row>, room: string, since: int, marker: Option<Value>)
    requires ReplayCursor(since, marker).Ok?
    ensures var replay := Db.Since(rows, room, ReplayCursor(since, marker).value.since);
      forall x :: x in replay <==>
        (x in rows && Db.InRoom(x, Str(room)) && Db.IdOf(x) > since
         && (marker.Some? && marker.value.Int? ==> Db.IdOf(x) > marker.value.i))
  {
  }

  /** A viewer of a room whose marker is `k` and which has no messages, joining with a cursor
      up to `k`, is told to clear and replays nothing. */
  lemma JoinCleared(clearRows: seq<Row>, messageRows: seq<Row>, room: string, k: int, since: int)
    requires Db.Marker(clearRows, room) == Some(Int(k)) && since <= k
    requires forall x :: x in messageRows ==> !Db.InRoom(x, Str(room))
    ensures ReplayCursor(since, Db.Marker(clearRows, room)) == Ok(Cursor(true, k))
    ensures Db.Since(messageRows, room, k) == []
  {
    Db.SinceNone(messageRows, room, k);
  }

  /** After `trigger_clear_room_messages` on a room with messages, a viewer joining with any
      cursor up to the room's last id is told to clear, and gets no message to replay. */
  lemma JoinAfterClear(w: Events.World, room: string, since: int)
    requires Events.Ready(Events.Necsus, w) && Db.Last(w.messages.rows, room).Some?
    requires since <= Db.IdOf(Db.Last(w.messages.rows, room).value)
    ensures var after := Events.TriggerClearRoomMessages(w, room).world;
      var k := Db.IdOf(Db.Last(w.messages.rows, room).value);
      ReplayCursor(since, Db.Marker(after.clears.rows, room)) == Ok(Cursor(true, k))
      && Db.Since(after.messages.rows, room, k) == []
  {
    var after := Events.TriggerClearRoomMessages(w, room).world;
    EventProps.ClearMessagesEmptiesRoom(w, room);
    JoinCleared(after.clears.rows, after.messages.rows, room, Db.IdOf(Db.Last(w.messages.rows, room).value), since);
  }

  /** The endpoint `/ws/{room}`: the room it serves and the tag it got from the broker,
      each set by `on_connect`. */
  class WebSocketRoom {
    var room: Option<string>
    var tag: Option<(string, Broker.QueueId)>

    constructor ()
      ensures room.None? && tag.None?
    {
      room := None;
      tag := None;
    }

    /** The queue of `tag` is open and registered under no room but the tag's own, as
        `unsubscribe` needs. */
    ghost predicate Attached(broker: Broker.Broker)
      reads this, broker
    {
      tag.Some? ==>
        (tag.value.1 in broker.queues
         && forall r :: r in broker.queuesByRoom && r != tag.value.0 ==> tag.value.1 !in broker.queuesByRoom[r])
    }

    /** `on_connect`: read the cursor and the room's marker, then subscribe with the room's
        bots and its messages after the cursor. */
    method OnConnect(name: string, since: Option<string>, messages: Db.Table, bots: Db.Table,
                     clears: Db.Table, broker: Broker.Broker) returns (r: Result<Cursor>)
      requires broker.Valid()
      modifies this, broker
      ensures broker.Valid()
      ensures room == Some(name)
      ensures r == ReplayCursor(SocketSince(since), Db.Marker(clears.rows, name))
      ensures r.Raised? ==>
        (tag == old(tag) && broker.queues == old(broker.queues)
         && broker.queuesByRoom == old(broker.queuesByRoom) && broker.closed == old(broker.closed))
      ensures r.Ok? ==>
        (tag.Some? && tag.value.0 == name && tag.value.1 !in old(broker.queues)
         && Attached(broker)
         && broker.queues == old(broker.queues)[tag.value.1 := Broker.Seed(r.value.shouldClear,
              Db.FindAll(bots.rows, map["room" := Str(name)]), Db.Since(messages.rows, name, r.value.since))]
         && broker.queuesByRoom == old(broker.queuesByRoom)[name := Broker.Subscribers(old(broker.queuesByRoom), name) + {tag.value.1}]
         && broker.closed == old(broker.closed))
    {
      room := Some(name);
      var cursor := SocketSince(since);
      var marker := Db.Marker(clears.rows, name);
      r := ReplayCursor(cursor, marker);
      if r.Ok? {
        var currentBots := Db.FindAll(bots.rows, map["room" := Str(name)]);
        var newMessages := Db.Since(messages.rows, name, r.value.since);
        var t := broker.Subscribe(name, newMessages, currentBots, r.value.shouldClear);
        tag := Some(t);
        forall other | other in broker.queuesByRoom && other != name
          ensures t.1 !in broker.queuesByRoom[other]
        {
          assert other in old(broker.queuesByRoom);
        }
      }
    }

    /** `on_disconnect`: unsubscribe with the tag from `on_connect`. Before any connect the
        attribute is missing; a tag already unsubscribed makes `set.remove` raise. */
    method OnDisconnect(broker: Broker.Broker) returns (r: Result<()>)
      requires broker.Valid() && Attached(broker)
      modifies broker
      ensures broker.Valid()
      ensures tag.None? ==>
        (r == Raised(AttributeError) && broker.queues == old(broker.queues)
         && broker.queuesByRoom == old(broker.queuesByRoom) && broker.closed == old(broker.closed))
      ensures tag.Some? ==> var (name, q) := tag.value;
        (r == Ok(()) <==> q in Broker.Subscribers(old(broker.queuesByRoom), name))
        && (r.Raised? ==> r.error == KeyError)
        && broker.queues == old(broker.queues) && broker.closed == old(broker.closed) + {q}
        && broker.queuesByRoom == old(broker.queuesByRoom)[name := Broker.Subscribers(old(broker.queuesByRoom), name) - {q}]
    {
      match tag
      case None =>
        r := Raised(AttributeError);
      case Some(t) =>
        var removed := broker.Unsubscribe(t);
        r := if removed then Ok(()) else Raised(KeyError);
    }

    /** A viewer's whole session: `on_connect`, then `on_disconnect`, which runs only when
        `on_connect` returned (`left` is None otherwise). A session that connected disconnects
        cleanly, closes its own queue and leaves every room with the subscribers it had. */
    method Visit(name: string, since: Option<string>, messages: Db.Table, bots: Db.Table,
                 clears: Db.Table, broker: Broker.Broker) returns (r: Result<Cursor>, left: Option<Result<()>>)
      requires broker.Valid()
      modifies this, broker
      ensures broker.Valid()
      ensures r == ReplayCursor(SocketSince(since), Db.Marker(clears.rows, name))
      ensures r.Raised? ==> (left.None? && broker.queuesByRoom == old(broker.queuesByRoom)
        && broker.queues == old(broker.queues) && broker.closed == old(broker.closed))
      ensures r.Ok? ==> (left == Some(Ok(())) && tag.Some? && tag.value.1 in broker.closed
        && forall other :: Broker.Subscribers(broker.queuesByRoom, other) == Broker.Subscribers(old(broker.queuesByRoom), other))
    {
      ghost var before := broker.queuesByRoom;
      r := OnConnect(name, since, messages, bots, clears, broker);
      if r.Ok? {
        var q := tag.value.1;
        assert q !in Broker.Subscribers(before, name);
        var d := OnDisconnect(broker);
        left := Some(d);
        forall other
          ensures Broker.Subscribers(broker.queuesByRoom, other) == Broker.Subscribers(before, other)
        {
          ConnectThenDisconnect(before, name, q, other);
        }
      } else {
        left := None;
      }
    }
  }

  /** Connecting and then disconnecting leaves every room with the subscribers it had. */
  lemma ConnectThenDisconnect(byRoom: map<string, set<Broker.QueueId>>, name: string, q: Broker.QueueId, other: string)
    requires q !in Broker.Subscribers(byRoom, name)
    ensures var connected := byRoom[name := Broker.Subscribers(byRoom, name) + {q}];
      var left := connected[name := Broker.Subscribers(connected, name) - {q}];
      Broker.Subscribers(left, other) == Broker.Subscribers(byRoom, other)
  {
    var connected := byRoom[name := Broker.Subscribers(byRoom, name) + {q}];
    assert Broker.Subscribers(connected, name) - {q} == Broker.Subscribers(byRoom, name);
  }
}
