/** What the event functions of necsus/events.py and of the older events.py do, as functions
    from the state before a call to the state after it. The state is the messages and clears
    tables, the events published to rooms, and the calls made to the two foreign services:
    `re.search` and `requests.post`. Both files share this model: `schema` picks which store
    they talk to (necsus/db.py or db.py). */
module Events {
  import opened Values
  import Db
  import LegacyDb
  import Broker
  import opened BotClient

  datatype Schema = Necsus | Legacy

  function Columns(schema: Schema): set<string> {
    match schema
    case Necsus => Db.MessageColumns
    case Legacy => LegacyDb.MessageColumns
  }

  /** `db.messages.add(**message)` of the schema's store. */
  function StoreOf(schema: Schema, t: Db.TableState, message: Row, now: Stamp): (c: (Db.TableState, Result<Value>))
    requires Db.WellFormed(Columns(schema), t)
    ensures Db.WellFormed(Columns(schema), c.0)
  {
    match schema
    case Necsus => Db.StoreMessage(t, message, now)
    case Legacy => LegacyDb.StoreMessage(t, message, now)
  }

  /** `db.messages.room_state(room_name=room)` of the schema's store. */
  function RoomStateOf(schema: Schema, rows: seq<Row>, room: string): Result<Option<Db.Pin>> {
    match schema
    case Necsus => Db.RoomState(rows, room)
    case Legacy => LegacyDb.RoomState(rows, room)
  }

  /** What `re.search(pattern, text, flags=re.IGNORECASE)` came to: it raised, found
      nothing, or matched with these named groups. */
  datatype SearchResult = Invalid | NoMatch | Match(groups: Row)

  /** A call to one of the foreign services. */
  datatype Call = Searched(pattern: Value, text: string) | Posted(url: Value, envelope: Row)

  /** The foreign services and the clock: the regular-expression search (case-insensitive),
      the HTTP client, and the time stamped on stored messages. */
  datatype Oracles = Oracles(search: (string, string) -> SearchResult, post: (Value, Row) -> PostOutcome, now: Stamp)

  datatype World = World(messages: Db.TableState, clears: Db.TableState,
                         published: seq<(string, Broker.Event)>, calls: seq<Call>)

  /** The world after a call, and what the call returned or raised. */
  datatype Step<T> = Step(world: World, result: Result<T>)

  predicate Ready(schema: Schema, w: World) {
    Db.WellFormed(Columns(schema), w.messages) && Db.WellFormed(Db.ClearColumns, w.clears)
  }

  /** `re.search` on a pattern that is not a str raises TypeError, which the bare except
      catches like a bad expression. A bots row never holds a `JsonText`: the only value
      necsus/db.py JSON-encodes is the `state` of a message, so a pattern is a str exactly
      when it is `Str`. */
  function Search(o: Oracles, pattern: Value, text: string): SearchResult {
    if pattern.Str? then o.search(pattern.s, text) else Invalid
  }

  /** `bot.get('responds_to') or bot.get('name')`. */
  function Pattern(bot: Row): Value {
    if Truthy(Get(bot, "responds_to", PyNone)) then bot["responds_to"] else Get(bot, "name", PyNone)
  }

  function PatternField(bot: Row): string {
    if Truthy(Get(bot, "responds_to", PyNone)) then "responds_to" else "name"
  }

  function InvalidText(bot: Row): string {
    "Something went wrong. Bot " + Repr(Get(bot, "name", PyNone))
      + (" has an invalid " + PatternField(bot) + " regex: <pre>" + PyStr(Pattern(bot)) + "</pre>")
  }

  /** The bot answers the text: its pattern is non-empty and matches. */
  predicate Fires(o: Oracles, bot: Row, text: string) {
    Truthy(Pattern(bot)) && Search(o, Pattern(bot), text).Match?
  }

  function Human(room: string, author: string, text: string): Row {
    map["room" := Str(room), "author" := Str(author), "text" := Str(text)]
  }

  /** The message `trigger_clear_room_state` posts. */
  function ClearedNotice(room: string): Row {
    map["room" := Str(room), "author" := Str("NeCSuS"), "text" := Str("The room state has been cleared")]
  }

  // ---------------------------------------------------------------------------------
  // The steps.

  /** `message = db.messages.add(**message); broker.publish_message(room, message)`. */
  function Post(schema: Schema, w: World, room: string, message: Row, o: Oracles): (s: Step<Value>)
    requires Ready(schema, w)
    ensures Ready(schema, s.world)
  {
    var c := StoreOf(schema, w.messages, message, o.now);
    var stored := w.(messages := c.0);
    match c.1
    case Raised(e) => Step(stored, Raised(e))
    case Ok(v) => Step(stored.(published := stored.published + [(room, Broker.Event("message", v))]), Ok(v))
  }

  /** `trigger_bot`: run the bot and store and publish a truthy reply to the invoking room.
      When the bot gives no reply, `reply_message` is returned unassigned and Python raises
      UnboundLocalError. */
  function TriggerBot(schema: Schema, w: World, room: string, author: string, text: string,
                      bot: Row, params: Row, state: Value, o: Oracles): (s: Step<Value>)
    requires Ready(schema, w)
    ensures Ready(schema, s.world)
  {
    var called := match Request(room, bot, text, params, Str(author), state)
      case None => w
      case Some((url, env)) => w.(calls := w.calls + [Posted(url, env)]);
    match RunBot(room, bot, text, params, Str(author), state, o.post)
    case Raised(e) => Step(called, Raised(e))
    case Ok(reply) =>
      if reply.Some? && Truthy(Dict(reply.value)) then Post(schema, called, room, reply.value, o)
      else Step(called, Raised(UnboundLocalError))
  }

  /** One turn of the loop of `trigger_bots`: search the bot's pattern; a pattern that raises
      gets a notice from necsus, a match runs the bot. */
  function BotStep(schema: Schema, w: World, room: string, author: string, text: string, bot: Row, o: Oracles)
    : (s: Step<Option<Value>>)
    requires Ready(schema, w)
    ensures Ready(schema, s.world)
  {
    var pattern := Pattern(bot);
    var searched := w.(calls := w.calls + [Searched(pattern, text)]);
    match Search(o, pattern, text)
    case Invalid =>
      var p := Post(schema, searched, room, Notice(room, InvalidText(bot)), o);
      Step(p.world, if p.result.Raised? then Raised(p.result.error) else Ok(None))
    case NoMatch => Step(searched, Ok(None))
    case Match(groups) =>
      if Truthy(pattern) then
        var t := TriggerBot(schema, searched, room, author, text, bot, groups, PyNone, o);
        Step(t.world, if t.result.Raised? then Raised(t.result.error) else Ok(Some(t.result.value)))
      else Step(searched, Ok(None))
  }

  /** The rest of the loop of `trigger_bots` over `bots`, with `replies` gathered so far. */
  function BotsFrom(schema: Schema, w: World, room: string, author: string, text: string,
                    bots: seq<Row>, replies: seq<Value>, o: Oracles): (s: Step<seq<Value>>)
    requires Ready(schema, w)
    ensures Ready(schema, s.world)
    decreases |bots|
  {
    if bots == [] then Step(w, Ok(replies))
    else
      var b := BotStep(schema, w, room, author, text, bots[0], o);
      match b.result
      case Raised(e) => Step(b.world, Raised(e))
      case Ok(reply) =>
        BotsFrom(schema, b.world, room, author, text, bots[1..], replies + (if reply.Some? then [reply.value] else []), o)
  }

  /** `db.bots.find_all(room=room)`. */
  function RoomBots(botRows: seq<Row>, room: string): seq<Row> {
    Db.FindAll(botRows, map["room" := Str(room)])
  }

  /** `trigger_bots(room, author, text)`: every bot of the room, in stored order. */
  function TriggerBots(schema: Schema, w: World, botRows: seq<Row>, room: string, author: string, text: string,
                       o: Oracles): (s: Step<seq<Value>>)
    requires Ready(schema, w)
    ensures Ready(schema, s.world)
  {
    BotsFrom(schema, w, room, author, text, RoomBots(botRows, room), [], o)
  }

  /** Where `trigger_message_post` hands the message once it is stored: to the pinned bot
      alone when the pin names exactly one bot (no params, the pinned state), to no bot when
      it names none or several, and to the room's bots when the room is not pinned. */
  function Route(schema: Schema, w: World, botRows: seq<Row>, room: string, author: string, text: string,
                 special: Option<Db.Pin>, o: Oracles): (s: Step<seq<Value>>)
    requires Ready(schema, w)
    ensures Ready(schema, s.world)
  {
    match special
    case Some(pin) =>
      var pinned := Db.FindAll(botRows, map["id" := pin.botId]);
      if |pinned| != 1 then Step(w, Ok([]))
      else
        var t := TriggerBot(schema, w, room, author, text, pinned[0], map[], pin.state, o);
        Step(t.world, if t.result.Raised? then Raised(t.result.error) else Ok([t.result.value]))
    case None => TriggerBots(schema, w, botRows, room, author, text, o)
  }

  /** `trigger_message_post(room, author, text)`: read the room's pin, store and publish the
      message, then route it; answer with what `add` handed back. */
  function TriggerMessagePost(schema: Schema, w: World, botRows: seq<Row>, room: string, author: string,
                              text: string, o: Oracles): (s: Step<Value>)
    requires Ready(schema, w)
    ensures Ready(schema, s.world)
  {
    match RoomStateOf(schema, w.messages.rows, room)
    case Raised(e) => Step(w, Raised(e))
    case Ok(special) =>
      var p := Post(schema, w, room, Human(room, author, text), o);
      if p.result.Raised? then p
      else
        var t := Route(schema, p.world, botRows, room, author, text, special, o);
        Step(t.world, if t.result.Raised? then Raised(t.result.error) else p.result)
  }

  /** `trigger_clear_room_state(room)`: post a NeCSuS message to a pinned room; an unpinned
      room is left alone. */
  function TriggerClearRoomState(schema: Schema, w: World, room: string, o: Oracles): (s: Step<Value>)
    requires Ready(schema, w)
    ensures Ready(schema, s.world)
  {
    match RoomStateOf(schema, w.messages.rows, room)
    case Raised(e) => Step(w, Raised(e))
    case Ok(None) => Step(w, Ok(PyNone))
    case Ok(Some(_)) =>
      var p := Post(schema, w, room, ClearedNotice(room), o);
      Step(p.world, if p.result.Raised? then Raised(p.result.error) else Ok(PyNone))
  }

  /** `trigger_clear_room_messages(room)` of necsus/events.py: for a room with messages,
      record the last id as the room's clear marker, delete the room's messages and publish
      a clear event; answer with the room. */
  function TriggerClearRoomMessages(w: World, room: string): (s: Step<Value>)
    requires Ready(Necsus, w)
    ensures Ready(Necsus, s.world)
    ensures s.result == Ok(Str(room))
  {
    match Db.Last(w.messages.rows, room)
    case None => Step(w, Ok(Str(room)))
    case Some(msg) =>
      var messages := Db.DeleteRows(w.messages, map["room" := Str(room)]);
      Db.KeptRowsWellFormed(Columns(Necsus), w.messages, messages);
      var clears := Db.MarkCleared(w.clears, room, Db.IdOf(msg));
      Step(w.(messages := messages, clears := clears, published := w.published + [(room, Broker.ClearEvent)]), Ok(Str(room)))
  }
}
