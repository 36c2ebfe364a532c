/** The event functions of necsus/events.py and events.py run against the stores and the
    broker as objects: each method changes the messages table (and the clears table) and
    the broker's queues exactly as the matching function of `Events` says, with every
    published event delivered to the room's subscribers. */
module Dispatcher {
  import opened Values
  import Db
  import LegacyDb
  import Broker
  import opened BotClient
  import Events

  /** The `db` and `broker` that the event functions share. */
  class Relay {
    const schema: Events.Schema
    const messages: Db.Table
    const bots: Db.Table
    const clears: Db.Table
    const broker: Broker.Broker

    ghost predicate Valid()
      reads this, messages, bots, clears, broker
    {
      messages != bots && messages != clears && bots != clears
      && messages.Valid() && messages.columns == Events.Columns(schema)
      && clears.Valid() && clears.columns == Db.ClearColumns
      && broker.Valid()
    }

    /** The stores as the event functions see them, before a call. */
    ghost function Start(): Events.World
      reads this, messages, clears
    {
      Events.World(messages.State(), clears.State(), [], [])
    }

    /** The objects hold world `w`, whose publications were delivered on top of queues `base`. */
    ghost predicate Mirrors(w: Events.World, base: map<Broker.QueueId, seq<Broker.Event>>)
      reads this, messages, clears, broker
    {
      messages.State() == w.messages && clears.State() == w.clears
      && broker.queues == Broker.Broadcast(base, broker.queuesByRoom, w.published)
    }

    constructor (schema: Events.Schema, messages: Db.Table, bots: Db.Table, clears: Db.Table, broker: Broker.Broker)
      requires messages != bots && messages != clears && bots != clears
      requires messages.Valid() && messages.columns == Events.Columns(schema)
      requires clears.Valid() && clears.columns == Db.ClearColumns && broker.Valid()
      ensures Valid()
      ensures this.schema == schema && this.messages == messages && this.bots == bots
      ensures this.clears == clears && this.broker == broker
    {
      this.schema := schema;
      this.messages := messages;
      this.bots := bots;
      this.clears := clears;
      this.broker := broker;
    }

    /** `db.messages.add(**message)` of the schema's store. */
    method Store(message: Row, now: Stamp) returns (r: Result<Value>)
      requires Valid()
      modifies messages
      ensures Valid()
      ensures (messages.State(), r) == Events.StoreOf(schema, old(messages.State()), message, now)
    {
      match schema
      case Necsus => r := messages.AddMessage(message, now);
      case Legacy => r := LegacyDb.AddMessage(messages, message, now);
    }

    /** `message = db.messages.add(**message); broker.publish_message(room, message)`. */
    method Post(room: string, message: Row, o: Events.Oracles, ghost w: Events.World,
                ghost base: map<Broker.QueueId, seq<Broker.Event>>) returns (r: Result<Value>)
      requires Valid() && Mirrors(w, base) && Events.Ready(schema, w)
      modifies messages, broker
      ensures Valid() && broker.queuesByRoom == old(broker.queuesByRoom)
      ensures Mirrors(Events.Post(schema, w, room, message, o).world, base)
      ensures r == Events.Post(schema, w, room, message, o).result
    {
      ghost var c := Events.StoreOf(schema, w.messages, message, o.now);
      r := Store(message, o.now);
      ghost var stored := w.(messages := c.0);
      if r.Ok? {
        ghost var pubs := w.published + [(room, Broker.Event("message", r.value))];
        broker.PublishMessage(room, r.value);
        assert pubs[..|pubs| - 1] == w.published;
        assert broker.queues == Broker.Broadcast(base, broker.queuesByRoom, pubs);
        assert Events.Post(schema, w, room, message, o).world == stored.(published := pubs);
      } else {
        assert Events.Post(schema, w, room, message, o).world == stored;
      }
      assert clears.State() == w.clears;
    }

    /** `trigger_bot`: the request goes out through `o.post`; a truthy reply is stored and
        published to the invoking room. */
    method TriggerBot(room: string, author: string, text: string, bot: Row, params: Row, state: Value,
                      o: Events.Oracles, ghost w: Events.World, ghost base: map<Broker.QueueId, seq<Broker.Event>>)
      returns (r: Result<Value>)
      requires Valid() && Mirrors(w, base) && Events.Ready(schema, w)
      modifies messages, broker
      ensures Valid() && broker.queuesByRoom == old(broker.queuesByRoom)
      ensures Mirrors(Events.TriggerBot(schema, w, room, author, text, bot, params, state, o).world, base)
      ensures r == Events.TriggerBot(schema, w, room, author, text, bot, params, state, o).result
    {
      ghost var called := match Request(room, bot, text, params, Str(author), state)
        case None => w
        case Some((url, env)) => w.(calls := w.calls + [Events.Posted(url, env)]);
      var reply := RunBot(room, bot, text, params, Str(author), state, o.post);
      match reply
      case Raised(e) => r := Raised(e);
      case Ok(message) =>
        if message.Some? && Truthy(Dict(message.value)) {
          r := Post(room, message.value, o, called, base);
        } else {
          r := Raised(UnboundLocalError);
        }
    }

    /** One turn of the loop of `trigger_bots`. */
    method BotStep(room: string, author: string, text: string, bot: Row, o: Events.Oracles,
                   ghost w: Events.World, ghost base: map<Broker.QueueId, seq<Broker.Event>>)
      returns (r: Result<Option<Value>>)
      requires Valid() && Mirrors(w, base) && Events.Ready(schema, w)
      modifies messages, broker
      ensures Valid() && broker.queuesByRoom == old(broker.queuesByRoom)
      ensures Mirrors(Events.BotStep(schema, w, room, author, text, bot, o).world, base)
      ensures r == Events.BotStep(schema, w, room, author, text, bot, o).result
    {
      var pattern := Events.Pattern(bot);
      ghost var searched := w.(calls := w.calls + [Events.Searched(pattern, text)]);
      match Events.Search(o, pattern, text)
      case Invalid =>
        var p := Post(room, Notice(room, Events.InvalidText(bot)), o, searched, base);
        r := if p.Raised? then Raised(p.error) else Ok(None);
      case NoMatch =>
        r := Ok(None);
      case Match(groups) =>
        if Truthy(pattern) {
          var t := TriggerBot(room, author, text, bot, groups, PyNone, o, searched, base);
          r := if t.Raised? then Raised(t.error) else Ok(Some(t.value));
        } else {
          r := Ok(None);
        }
    }

    /** `trigger_bots(room, author, text)`: the room's bots in stored order; an exception
        ends the loop. */
    method TriggerBots(room: string, author: string, text: string, o: Events.Oracles,
                       ghost w: Events.World, ghost base: map<Broker.QueueId, seq<Broker.Event>>)
      returns (r: Result<seq<Value>>)
      requires Valid() && Mirrors(w, base) && Events.Ready(schema, w)
      modifies messages, broker
      ensures Valid() && broker.queuesByRoom == old(broker.queuesByRoom)
      ensures Mirrors(Events.TriggerBots(schema, w, bots.rows, room, author, text, o).world, base)
      ensures r == Events.TriggerBots(schema, w, bots.rows, room, author, text, o).result
    {
      var roomBots := Events.RoomBots(bots.rows, room);
      var replies: seq<Value> := [];
      var i := 0;
      ghost var cur := w;
      while i < |roomBots|
        invariant 0 <= i <= |roomBots|
        invariant Valid() && Mirrors(cur, base) && Events.Ready(schema, cur)
        invariant broker.queuesByRoom == old(broker.queuesByRoom)
        invariant Events.BotsFrom(schema, cur, room, author, text, roomBots[i..], replies, o)
               == Events.BotsFrom(schema, w, room, author, text, roomBots, [], o)
      {
        assert roomBots[i..][0] == roomBots[i] && roomBots[i..][1..] == roomBots[i + 1..];
        ghost var step := Events.BotStep(schema, cur, room, author, text, roomBots[i], o);
        var b := BotStep(room, author, text, roomBots[i], o, cur, base);
        if b.Raised? {
          return Raised(b.error);
        }
        replies := replies + if b.value.Some? then [b.value.value] else [];
        cur := step.world;
        i := i + 1;
      }
      r := Ok(replies);
    }

    /** Hand the stored message to the pinned bot or to the room's bots. */
    method Route(room: string, author: string, text: string, special: Option<Db.Pin>, o: Events.Oracles,
                 ghost w: Events.World, ghost base: map<Broker.QueueId, seq<Broker.Event>>)
      returns (r: Result<seq<Value>>)
      requires Valid() && Mirrors(w, base) && Events.Ready(schema, w)
      modifies messages, broker
      ensures Valid() && broker.queuesByRoom == old(broker.queuesByRoom)
      ensures Mirrors(Events.Route(schema, w, bots.rows, room, author, text, special, o).world, base)
      ensures r == Events.Route(schema, w, bots.rows, room, author, text, special, o).result
    {
      match special
      case Some(pin) =>
        var pinned := Db.FindAll(bots.rows, map["id" := pin.botId]);
        if |pinned| != 1 {
          r := Ok([]);
        } else {
          var t := TriggerBot(room, author, text, pinned[0], map[], pin.state, o, w, base);
          r := if t.Raised? then Raised(t.error) else Ok([t.value]);
        }
      case None =>
        r := TriggerBots(room, author, text, o, w, base);
    }

    /** `trigger_message_post(room, author, text)`. */
    method TriggerMessagePost(room: string, author: string, text: string, o: Events.Oracles) returns (r: Result<Value>)
      requires Valid()
      modifies messages, broker
      ensures Valid() && broker.queuesByRoom == old(broker.queuesByRoom)
      ensures var s := Events.TriggerMessagePost(schema, old(Start()), bots.rows, room, author, text, o);
        Mirrors(s.world, old(broker.queues)) && r == s.result
    {
      ghost var w := Start();
      ghost var base := broker.queues;
      match Events.RoomStateOf(schema, messages.rows, room)
      case Raised(e) =>
        r := Raised(e);
      case Ok(special) =>
        ghost var p := Events.Post(schema, w, room, Events.Human(room, author, text), o);
        var message := Post(room, Events.Human(room, author, text), o, w, base);
        if message.Ok? {
          var t := Route(room, author, text, special, o, p.world, base);
          r := if t.Raised? then Raised(t.error) else message;
        } else {
          r := message;
        }
    }

    /** `trigger_clear_room_state(room)`. */
    method TriggerClearRoomState(room: string, o: Events.Oracles) returns (r: Result<Value>)
      requires Valid()
      modifies messages, broker
      ensures Valid() && broker.queuesByRoom == old(broker.queuesByRoom)
      ensures var s := Events.TriggerClearRoomState(schema, old(Start()), room, o);
        Mirrors(s.world, old(broker.queues)) && r == s.result
    {
      ghost var w := Start();
      ghost var base := broker.queues;
      match Events.RoomStateOf(schema, messages.rows, room)
      case Raised(e) =>
        r := Raised(e);
      case Ok(None) =>
        r := Ok(PyNone);
      case Ok(Some(_)) =>
        var p := Post(room, Events.ClearedNotice(room), o, w, base);
        r := if p.Raised? then Raised(p.error) else Ok(PyNone);
    }

    /** `trigger_clear_room_messages(room)` of necsus/events.py. */
    method TriggerClearRoomMessages(room: string) returns (r: Value)
      requires Valid() && schema == Events.Necsus
      modifies messages, clears, broker
      ensures Valid() && broker.queuesByRoom == old(broker.queuesByRoom)
      ensures var s := Events.TriggerClearRoomMessages(old(Start()), room);
        Mirrors(s.world, old(broker.queues)) && Ok(r) == s.result
    {
      ghost var w := Start();
      ghost var base := broker.queues;
      var last := Db.Last(messages.rows, room);
      if last.Some? {
        clears.SetLastClearedId(room, Db.IdOf(last.value));
        var _ := messages.Delete(map["room" := Str(room)]);
        Db.KeptRowsWellFormed(Events.Columns(schema), w.messages, messages.State());
        ghost var pubs := w.published + [(room, Broker.ClearEvent)];
        broker.ClearRoom(room);
        assert pubs[..|pubs| - 1] == w.published;
      }
      r := Str(room);
    }
  }
}
