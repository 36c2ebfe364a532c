/** Properties of the event functions: what a posted message leaves in the store and on the
    broker, in what order the bots are consulted, how pins route, and what clearing leaves. */
module EventProps {
  import opened Values
  import Db
  import LegacyDb
  import Broker
  import opened BotClient
  import opened Events

  /** The row the schema's `Messages.add` appends for a message without an id. */
  function StoredRow(schema: Schema, t: Db.TableState, message: Row, now: Stamp): Row {
    match schema
    case Necsus => Db.StoredMessage(t, message, now)
    case Legacy => Db.Complete(LegacyDb.MessageColumns, LegacyDb.PrepareMessage(message, now))["id" := Int(t.seqNo + 1)]
  }

  /** What the schema's `Messages.add` hands back for that message: the stored row itself in
      necsus, the stamped message in db.py. */
  function Returned(schema: Schema, t: Db.TableState, message: Row, now: Stamp): Value {
    match schema
    case Necsus => Dict(Db.StoredMessage(t, message, now))
    case Legacy => Dict(message["when" := now])
  }

  /** A message a room can receive: it names a room and carries no id. */
  predicate Postable(message: Row) {
    "id" !in message && "room" in message && message["room"] != PyNone
  }

  /** A message the schema's store can write. Both stores write the values into the SQL
      text, which fails for a list or dict; necsus/db.py writes a state as its JSON text, so
      only db.py fails on a list or dict state. */
  predicate Storable(schema: Schema, message: Row) {
    match schema
    case Necsus => Db.Renderable(message)
    case Legacy => LegacyDb.Renderable(message)
  }

  /** The messages necsus composes itself hold only str values, so both stores can write them. */
  lemma ComposedStorable(schema: Schema, room: string, author: string, text: string)
    ensures Storable(schema, Human(room, author, text))
    ensures Storable(schema, Notice(room, text))
    ensures Storable(schema, ClearedNotice(room))
  {
  }

  /** The world `w` after `message` was stored and published to `room`. */
  function AfterPost(schema: Schema, w: World, room: string, message: Row, o: Oracles): World {
    w.(messages := Db.TableState(w.messages.rows + [StoredRow(schema, w.messages, message, o.now)], w.messages.seqNo + 1),
       published := w.published + [(room, Broker.Event("message", Returned(schema, w.messages, message, o.now)))])
  }

  /** World `w'` came from `w` by appending only: rows, publications and calls. */
  predicate Grows(w: World, w': World) {
    w.messages.rows <= w'.messages.rows && w.published <= w'.published && w.calls <= w'.calls && w'.clears == w.clears
  }

  lemma GrowsTransitive(a: World, b: World, c: World)
    requires Grows(a, b) && Grows(b, c)
    ensures Grows(a, c)
  {
    assert c.messages.rows[..|a.messages.rows|] == c.messages.rows[..|b.messages.rows|][..|a.messages.rows|];
    assert c.published[..|a.published|] == c.published[..|b.published|][..|a.published|];
    assert c.calls[..|a.calls|] == c.calls[..|b.calls|][..|a.calls|];
  }

  /** Storing and publishing a postable message appends exactly one row with the next id and
      one message event to the room, and answers with what `add` handed back. */
  lemma PostAppends(schema: Schema, w: World, room: string, message: Row, o: Oracles)
    requires Ready(schema, w) && Postable(message) && Storable(schema, message)
    ensures Ready(schema, AfterPost(schema, w, room, message, o))
    ensures Post(schema, w, room, message, o) == Step(AfterPost(schema, w, room, message, o), Ok(Returned(schema, w.messages, message, o.now)))
  {
    var t := Db.TableState(w.messages.rows + [StoredRow(schema, w.messages, message, o.now)], w.messages.seqNo + 1);
    var v := Returned(schema, w.messages, message, o.now);
    StoreOfAppends(schema, w.messages, message, o.now);
    PostOfStored(schema, w, room, message, o, t, v);
    AfterPostIs(schema, w, room, message, o);
  }

  /** `Post` publishes to the room exactly what the store handed back. */
  lemma PostOfStored(schema: Schema, w: World, room: string, message: Row, o: Oracles, t: Db.TableState, v: Value)
    requires Ready(schema, w) && StoreOf(schema, w.messages, message, o.now) == (t, Ok(v))
    ensures Db.WellFormed(Columns(schema), t)
    ensures Post(schema, w, room, message, o)
      == Step(w.(messages := t, published := w.published + [(room, Broker.Event("message", v))]), Ok(v))
  {
  }

  lemma AfterPostIs(schema: Schema, w: World, room: string, message: Row, o: Oracles)
    ensures AfterPost(schema, w, room, message, o)
      == w.(messages := Db.TableState(w.messages.rows + [StoredRow(schema, w.messages, message, o.now)], w.messages.seqNo + 1),
            published := w.published + [(room, Broker.Event("message", Returned(schema, w.messages, message, o.now)))])
  {
  }

  /** The schema's `Messages.add` on a postable message appends the stored row. */
  lemma StoreOfAppends(schema: Schema, t: Db.TableState, message: Row, now: Stamp)
    requires Db.WellFormed(Columns(schema), t) && Postable(message) && Storable(schema, message)
    ensures StoreOf(schema, t, message, now)
      == (Db.TableState(t.rows + [StoredRow(schema, t, message, now)], t.seqNo + 1), Ok(Returned(schema, t, message, now)))
  {
    match schema
    case Necsus => Db.StoreMessageAppends(t, message, now);
    case Legacy =>
  }

  /** A message the store cannot write is neither stored nor published: the INSERT raises
      OperationalError. */
  lemma PostUnstorable(schema: Schema, w: World, room: string, message: Row, o: Oracles)
    requires Ready(schema, w) && !Storable(schema, message)
    ensures Post(schema, w, room, message, o) == Step(w, Raised(OperationalError))
  {
  }

  lemma AfterPostGrows(schema: Schema, w: World, room: string, message: Row, o: Oracles)
    ensures Grows(w, AfterPost(schema, w, room, message, o))
  {
  }

  /** Every message a bot run hands to `add`: a sanitised reply or a notice. */
  lemma RepliesPostable(room: string, bot: Row, text: string, params: Row, user: Value, state: Value,
                        post: (Value, Row) -> PostOutcome)
    requires RunBot(room, bot, text, params, user, state, post).Ok?
    requires RunBot(room, bot, text, params, user, state, post).value.Some?
    ensures Postable(RunBot(room, bot, text, params, user, state, post).value.value)
  {
    var url := bot["url"];
    var outcome := post(url, Envelope(room, user, text, params, state));
    assert RunBot(room, bot, text, params, user, state, post) == Respond(room, bot, outcome);
    match outcome
    case TimedOut(kind) =>
      NoticePostable(room, TimeoutText(BotName(bot), kind));
    case Answered(status, json) =>
      if status != 200 {
        NoticePostable(room, StatusText(BotName(bot), status));
      } else {
        SanitizedPostable(room, bot, json.value);
      }
  }

  lemma NoticePostable(room: string, text: string)
    ensures Postable(Notice(room, text))
  {
    assert "id"[0] == 'i' && "room"[0] == 'r' && "author"[0] == 'a' && "text"[0] == 't';
  }

  /** The call a bot run makes: one request, or none without a url. */
  function RequestCalls(r: Option<(Value, Row)>): seq<Call> {
    match r
    case None => []
    case Some((url, env)) => [Posted(url, env)]
  }

  /** A bot run makes its one request, if any, and otherwise only appends to the world: at
      most one message, stored and published. */
  lemma TriggerBotCalls(schema: Schema, w: World, room: string, author: string, text: string,
                        bot: Row, params: Row, state: Value, o: Oracles)
    requires Ready(schema, w)
    ensures var s := TriggerBot(schema, w, room, author, text, bot, params, state, o);
      s.world.calls == w.calls + RequestCalls(Request(room, bot, text, params, Str(author), state))
      && Grows(w, s.world)
      && |s.world.messages.rows| <= |w.messages.rows| + 1 && |s.world.published| <= |w.published| + 1
  {
    var called := w.(calls := w.calls + RequestCalls(Request(room, bot, text, params, Str(author), state)));
    var r := RunBot(room, bot, text, params, Str(author), state, o.post);
    if r.Ok? && r.value.Some? && Truthy(Dict(r.value.value)) {
      if Storable(schema, r.value.value) {
        TriggerBotStores(schema, w, room, author, text, bot, params, state, o, r.value.value);
        GrowsTransitive(w, called, AfterPost(schema, called, room, r.value.value, o));
      } else {
        TriggerBotUnstorable(schema, w, room, author, text, bot, params, state, o, r.value.value);
      }
    } else {
      TriggerBotNoReply(schema, w, room, author, text, bot, params, state, o);
    }
  }

  /** A truthy reply is stored and then published to the invoking room, whatever room the
      reply itself names, and `trigger_bot` answers with what `add` handed back. */
  lemma TriggerBotStores(schema: Schema, w: World, room: string, author: string, text: string,
                         bot: Row, params: Row, state: Value, o: Oracles, reply: Row)
    requires Ready(schema, w)
    requires RunBot(room, bot, text, params, Str(author), state, o.post) == Ok(Some(reply)) && Truthy(Dict(reply))
    requires Storable(schema, reply)
    ensures var called := w.(calls := w.calls + RequestCalls(Request(room, bot, text, params, Str(author), state)));
      TriggerBot(schema, w, room, author, text, bot, params, state, o)
        == Step(AfterPost(schema, called, room, reply, o), Ok(Returned(schema, called.messages, reply, o.now)))
  {
    var called := w.(calls := w.calls + RequestCalls(Request(room, bot, text, params, Str(author), state)));
    RepliesPostable(room, bot, text, params, Str(author), state, o.post);
    PostAppends(schema, called, room, reply, o);
  }

  /** A truthy reply the store cannot write, such as one with a list state in db.py, is not
      stored: `trigger_bot` raises OperationalError after the request, with nothing published. */
  lemma TriggerBotUnstorable(schema: Schema, w: World, room: string, author: string, text: string,
                             bot: Row, params: Row, state: Value, o: Oracles, reply: Row)
    requires Ready(schema, w)
    requires RunBot(room, bot, text, params, Str(author), state, o.post) == Ok(Some(reply)) && Truthy(Dict(reply))
    requires !Storable(schema, reply)
    ensures var called := w.(calls := w.calls + RequestCalls(Request(room, bot, text, params, Str(author), state)));
      TriggerBot(schema, w, room, author, text, bot, params, state, o) == Step(called, Raised(OperationalError))
  {
    var called := w.(calls := w.calls + RequestCalls(Request(room, bot, text, params, Str(author), state)));
    PostUnstorable(schema, called, room, reply, o);
  }

  /** Without a truthy reply nothing is stored or published: a failed request raises its
      error, and a missing or empty reply leaves `reply_message` unbound. */
  lemma TriggerBotNoReply(schema: Schema, w: World, room: string, author: string, text: string,
                          bot: Row, params: Row, state: Value, o: Oracles)
    requires Ready(schema, w)
    requires var r := RunBot(room, bot, text, params, Str(author), state, o.post);
      !(r.Ok? && r.value.Some? && Truthy(Dict(r.value.value)))
    ensures var r := RunBot(room, bot, text, params, Str(author), state, o.post);
      var called := w.(calls := w.calls + RequestCalls(Request(room, bot, text, params, Str(author), state)));
      TriggerBot(schema, w, room, author, text, bot, params, state, o)
        == Step(called, Raised(if r.Raised? then r.error else UnboundLocalError))
  {
  }

  /** The calls made for one bot of the room: a search of its pattern, and when the bot fires
      and has a url, one request carrying the named groups as params. */
  function BotCalls(o: Oracles, room: string, author: string, text: string, bot: Row): seq<Call> {
    [Searched(Pattern(bot), text)]
      + if Fires(o, bot, text) && Truthy(Get(bot, "url", PyNone))
        then [Posted(bot["url"], Envelope(room, Str(author), text, Search(o, Pattern(bot), text).groups, PyNone))]
        else []
  }

  /** The calls made for the bots in order, each bot once. */
  function RouteCalls(o: Oracles, room: string, author: string, text: string, bots: seq<Row>): seq<Call>
    decreases |bots|
  {
    if bots == [] then [] else BotCalls(o, room, author, text, bots[0]) + RouteCalls(o, room, author, text, bots[1..])
  }

  /** One turn of the loop makes exactly the bot's calls and only appends. */
  lemma BotStepCalls(schema: Schema, w: World, room: string, author: string, text: string, bot: Row, o: Oracles)
    requires Ready(schema, w)
    ensures var s := BotStep(schema, w, room, author, text, bot, o);
      s.world.calls == w.calls + BotCalls(o, room, author, text, bot) && Grows(w, s.world)
  {
    if Search(o, Pattern(bot), text).Match? {
      BotStepMatch(schema, w, room, author, text, bot, o);
    } else {
      BotStepNoMatch(schema, w, room, author, text, bot, o);
    }
  }

  lemma BotStepNoMatch(schema: Schema, w: World, room: string, author: string, text: string, bot: Row, o: Oracles)
    requires Ready(schema, w) && !Search(o, Pattern(bot), text).Match?
    ensures var s := BotStep(schema, w, room, author, text, bot, o);
      s.world.calls == w.calls + BotCalls(o, room, author, text, bot) && Grows(w, s.world)
  {
    var searched := w.(calls := w.calls + [Searched(Pattern(bot), text)]);
    assert BotCalls(o, room, author, text, bot) == [Searched(Pattern(bot), text)];
    if Search(o, Pattern(bot), text).Invalid? {
      InvalidPatternNotice(schema, w, room, author, text, bot, o);
      GrowsTransitive(w, searched, AfterPost(schema, searched, room, Notice(room, InvalidText(bot)), o));
    }
  }

  lemma BotStepMatch(schema: Schema, w: World, room: string, author: string, text: string, bot: Row, o: Oracles)
    requires Ready(schema, w) && Search(o, Pattern(bot), text).Match?
    ensures var s := BotStep(schema, w, room, author, text, bot, o);
      s.world.calls == w.calls + BotCalls(o, room, author, text, bot) && Grows(w, s.world)
  {
    var searched := w.(calls := w.calls + [Searched(Pattern(bot), text)]);
    var groups := Search(o, Pattern(bot), text).groups;
    if Truthy(Pattern(bot)) {
      TriggerBotCalls(schema, searched, room, author, text, bot, groups, PyNone, o);
      GrowsTransitive(w, searched, TriggerBot(schema, searched, room, author, text, bot, groups, PyNone, o).world);
    }
  }

  lemma AppendAssoc<T>(a: seq<T>, b: seq<T>, c: seq<T>)
    ensures a + (b + c) == (a + b) + c
  {
  }

  lemma PrefixOfAppend<T>(a: seq<T>, b: seq<T>)
    ensures a <= a + b
  {
    assert (a + b)[..|a|] == a;
  }

  /** The loop of `trigger_bots` only appends to the world. */
  lemma {:induction false} BotsFromGrows(schema: Schema, w: World, room: string, author: string, text: string,
                                         bots: seq<Row>, replies: seq<Value>, o: Oracles)
    requires Ready(schema, w)
    ensures Grows(w, BotsFrom(schema, w, room, author, text, bots, replies, o).world)
    decreases |bots|
  {
    if bots != [] {
      var b := BotStep(schema, w, room, author, text, bots[0], o);
      BotStepCalls(schema, w, room, author, text, bots[0], o);
      if b.result.Ok? {
        var reply := b.result.value;
        var more := replies + (if reply.Some? then [reply.value] else []);
        BotsFromGrows(schema, b.world, room, author, text, bots[1..], more, o);
        GrowsTransitive(w, b.world, BotsFrom(schema, b.world, room, author, text, bots[1..], more, o).world);
      }
    }
  }

  /** `trigger_bots` searches every bot of the list once, in order, and posts to exactly the
      bots that fire and have a url. */
  lemma {:induction false} BotsFromCalls(schema: Schema, w: World, room: string, author: string, text: string,
                                         bots: seq<Row>, replies: seq<Value>, o: Oracles)
    requires Ready(schema, w)
    ensures var s := BotsFrom(schema, w, room, author, text, bots, replies, o);
      s.result.Ok? ==> s.world.calls == w.calls + RouteCalls(o, room, author, text, bots)
    decreases |bots|
  {
    if bots != [] {
      var b := BotStep(schema, w, room, author, text, bots[0], o);
      BotStepCalls(schema, w, room, author, text, bots[0], o);
      if b.result.Ok? {
        var reply := b.result.value;
        var more := replies + (if reply.Some? then [reply.value] else []);
        BotsFromCalls(schema, b.world, room, author, text, bots[1..], more, o);
        AppendAssoc(w.calls, BotCalls(o, room, author, text, bots[0]), RouteCalls(o, room, author, text, bots[1..]));
      }
    }
  }

  /** An exception stops `trigger_bots`: what it called is then a prefix of the full round. */
  lemma {:induction false} BotsFromCallsPrefix(schema: Schema, w: World, room: string, author: string, text: string,
                                               bots: seq<Row>, replies: seq<Value>, o: Oracles)
    requires Ready(schema, w)
    ensures BotsFrom(schema, w, room, author, text, bots, replies, o).world.calls
      <= w.calls + RouteCalls(o, room, author, text, bots)
    decreases |bots|
  {
    if bots != [] {
      var b := BotStep(schema, w, room, author, text, bots[0], o);
      BotStepCalls(schema, w, room, author, text, bots[0], o);
      var tail := RouteCalls(o, room, author, text, bots[1..]);
      AppendAssoc(w.calls, BotCalls(o, room, author, text, bots[0]), tail);
      if b.result.Ok? {
        var reply := b.result.value;
        var more := replies + (if reply.Some? then [reply.value] else []);
        BotsFromCallsPrefix(schema, b.world, room, author, text, bots[1..], more, o);
      } else {
        PrefixOfAppend(b.world.calls, tail);
      }
    }
  }

  /** A pattern that `re.search` rejects costs one notice from necsus to the room, naming the
      bot, and the loop goes on to the next bot. */
  lemma InvalidPatternNotice(schema: Schema, w: World, room: string, author: string, text: string, bot: Row, o: Oracles)
    requires Ready(schema, w) && Search(o, Pattern(bot), text).Invalid?
    ensures var searched := w.(calls := w.calls + [Searched(Pattern(bot), text)]);
      BotStep(schema, w, room, author, text, bot, o)
        == Step(AfterPost(schema, searched, room, Notice(room, InvalidText(bot)), o), Ok(None))
    ensures Contains(InvalidText(bot), Repr(Get(bot, "name", PyNone)))
    ensures Contains(InvalidText(bot), PatternField(bot))
  {
    var searched := w.(calls := w.calls + [Searched(Pattern(bot), text)]);
    ComposedStorable(schema, room, author, InvalidText(bot));
    PostAppends(schema, searched, room, Notice(room, InvalidText(bot)), o);
    InvalidTextNames(bot);
  }

  /** The notice names the bot and the field its pattern came from. */
  lemma InvalidTextNames(bot: Row)
    ensures Contains(InvalidText(bot), Repr(Get(bot, "name", PyNone)))
    ensures Contains(InvalidText(bot), PatternField(bot))
  {
    var n := Repr(Get(bot, "name", PyNone));
    var rest := " has an invalid " + PatternField(bot) + " regex: <pre>" + PyStr(Pattern(bot)) + "</pre>";
    ContainsMiddle("Something went wrong. Bot ", n, rest);
    ContainsInner("Something went wrong. Bot ", n, " has an invalid ", PatternField(bot),
                  " regex: <pre>", PyStr(Pattern(bot)), "</pre>");
  }

  lemma ContainsInner(a: string, n: string, b: string, f: string, c: string, d: string, e: string)
    ensures Contains(a + n + (b + f + c + d + e), f)
  {
    assert a + n + (b + f + c + d + e) == (a + n + b) + f + (c + d + e);
    ContainsMiddle(a + n + b, f, c + d + e);
  }

  /** A room's pin is read before the message is stored; a failure to read it stores nothing. */
  lemma PinReadFirst(schema: Schema, w: World, botRows: seq<Row>, room: string, author: string, text: string, o: Oracles)
    requires Ready(schema, w) && RoomStateOf(schema, w.messages.rows, room).Raised?
    ensures TriggerMessagePost(schema, w, botRows, room, author, text, o)
      == Step(w, Raised(RoomStateOf(schema, w.messages.rows, room).error))
  {
  }

  /** Once the pin is read, `trigger_message_post` stores and publishes the message, then
      routes it; it answers with what `add` handed back unless routing raised. */
  lemma MessagePostSteps(schema: Schema, w: World, botRows: seq<Row>, room: string, author: string, text: string, o: Oracles)
    requires Ready(schema, w) && RoomStateOf(schema, w.messages.rows, room).Ok?
    ensures Ready(schema, AfterPost(schema, w, room, Human(room, author, text), o))
    ensures var message := Human(room, author, text);
      var first := AfterPost(schema, w, room, message, o);
      var t := Route(schema, first, botRows, room, author, text, RoomStateOf(schema, w.messages.rows, room).value, o);
      TriggerMessagePost(schema, w, botRows, room, author, text, o)
        == Step(t.world, if t.result.Raised? then Raised(t.result.error) else Ok(Returned(schema, w.messages, message, o.now)))
  {
    ComposedStorable(schema, room, author, text);
    PostAppends(schema, w, room, Human(room, author, text), o);
  }

  /** Routing only appends to the world. */
  lemma RouteGrows(schema: Schema, w: World, botRows: seq<Row>, room: string, author: string, text: string,
                   special: Option<Db.Pin>, o: Oracles)
    requires Ready(schema, w)
    ensures Grows(w, Route(schema, w, botRows, room, author, text, special, o).world)
  {
    match special
    case Some(pin) =>
      var pinned := Db.FindAll(botRows, map["id" := pin.botId]);
      if |pinned| == 1 {
        TriggerBotCalls(schema, w, room, author, text, pinned[0], map[], pin.state, o);
      }
    case None =>
      BotsFromGrows(schema, w, room, author, text, RoomBots(botRows, room), [], o);
  }

  /** The posted message is stored and published first, whatever the bots then do, and is what
      `trigger_message_post` answers with. */
  lemma MessageStoredFirst(schema: Schema, w: World, botRows: seq<Row>, room: string, author: string, text: string, o: Oracles)
    requires Ready(schema, w) && RoomStateOf(schema, w.messages.rows, room).Ok?
    ensures var s := TriggerMessagePost(schema, w, botRows, room, author, text, o);
      var first := AfterPost(schema, w, room, Human(room, author, text), o);
      Grows(first, s.world)
      && (s.result.Ok? ==> s.result.value == Returned(schema, w.messages, Human(room, author, text), o.now))
  {
    MessagePostSteps(schema, w, botRows, room, author, text, o);
    var first := AfterPost(schema, w, room, Human(room, author, text), o);
    RouteGrows(schema, first, botRows, room, author, text, RoomStateOf(schema, w.messages.rows, room).value, o);
  }

  /** In a pinned room the message goes to the one pinned bot alone, with no params and the
      pinned state: no pattern is searched. */
  lemma PinnedRoute(schema: Schema, w: World, botRows: seq<Row>, room: string, author: string, text: string,
                    o: Oracles, pin: Db.Pin, bot: Row)
    requires Ready(schema, w) && RoomStateOf(schema, w.messages.rows, room) == Ok(Some(pin))
    requires Db.FindAll(botRows, map["id" := pin.botId]) == [bot]
    ensures TriggerMessagePost(schema, w, botRows, room, author, text, o).world.calls
      == w.calls + RequestCalls(Request(room, bot, text, map[], Str(author), pin.state))
  {
    MessagePostSteps(schema, w, botRows, room, author, text, o);
    var first := AfterPost(schema, w, room, Human(room, author, text), o);
    TriggerBotCalls(schema, first, room, author, text, bot, map[], pin.state, o);
  }

  /** A pin that does not name exactly one bot stores and publishes the message and calls
      nothing. */
  lemma UnresolvedPin(schema: Schema, w: World, botRows: seq<Row>, room: string, author: string, text: string,
                      o: Oracles, pin: Db.Pin)
    requires Ready(schema, w) && RoomStateOf(schema, w.messages.rows, room) == Ok(Some(pin))
    requires |Db.FindAll(botRows, map["id" := pin.botId])| != 1
    ensures TriggerMessagePost(schema, w, botRows, room, author, text, o)
      == Step(AfterPost(schema, w, room, Human(room, author, text), o), Ok(Returned(schema, w.messages, Human(room, author, text), o.now)))
  {
    MessagePostSteps(schema, w, botRows, room, author, text, o);
  }

  /** In an unpinned room the bots of the room are consulted in stored order, each once. */
  lemma UnpinnedRoute(schema: Schema, w: World, botRows: seq<Row>, room: string, author: string, text: string, o: Oracles)
    requires Ready(schema, w) && RoomStateOf(schema, w.messages.rows, room) == Ok(None)
    ensures var s := TriggerMessagePost(schema, w, botRows, room, author, text, o);
      s.world.calls <= w.calls + RouteCalls(o, room, author, text, RoomBots(botRows, room))
      && (s.result.Ok? ==> s.world.calls == w.calls + RouteCalls(o, room, author, text, RoomBots(botRows, room)))
  {
    MessagePostSteps(schema, w, botRows, room, author, text, o);
    var first := AfterPost(schema, w, room, Human(room, author, text), o);
    BotsFromCalls(schema, first, room, author, text, RoomBots(botRows, room), [], o);
    BotsFromCallsPrefix(schema, first, room, author, text, RoomBots(botRows, room), [], o);
  }

  /** No stored bot matches a pin to None: `id = NULL` is never true. */
  lemma NoBotForNone(botRows: seq<Row>)
    ensures Db.FindAll(botRows, map["id" := PyNone]) == []
  {
    var none := map["id" := PyNone];
    forall x ensures !Db.Matches(x, none) {
      assert "id" in none;
    }
    Db.FindAllNone(botRows, none);
  }

  /** A sanitised reply is postable and has no `from_bot`; a state it carries is not None
      and comes with the bot's id as `reply_to`. */
  lemma SanitizedPostable(room: string, bot: Row, body: Value)
    requires Sanitize(room, bot, body).Some?
    ensures var reply := Sanitize(room, bot, body).value;
      Postable(reply) && "from_bot" !in reply
      && ("state" in reply ==> reply["state"] != PyNone && "reply_to" in reply && reply["reply_to"] == Get(bot, "id", PyNone))
  {
    SanitizeKeys(room, bot, body);
    SanitizeValues(room, bot, body);
    OutsideSafeKeys();
  }

  /** In necsus a bot that answers with a state pins the room to no bot: the sanitised reply
      carries the bot's id as `reply_to`, which necsus/db.py does not store, while `room_state`
      reads `from_bot`, which nothing sets. The next message in the room therefore reaches no
      bot at all, neither the pinned one nor by pattern. */
  lemma NecsusPinIsLost(w: World, botRows: seq<Row>, room: string, author: string, text: string,
                        bot: Row, body: Value, o: Oracles)
    requires Ready(Necsus, w)
    requires Sanitize(room, bot, body).Some?
    requires var reply := Sanitize(room, bot, body).value; reply["room"] == Str(room) && "state" in reply
    requires Literal(BotName(bot))
    ensures Ready(Necsus, AfterPost(Necsus, w, room, Sanitize(room, bot, body).value, o))
    ensures var reply := Sanitize(room, bot, body).value;
      var pinned := AfterPost(Necsus, w, room, reply, o);
      RoomStateOf(Necsus, pinned.messages.rows, room) == Ok(Some(Db.Pin(PyNone, reply["state"])))
      && TriggerMessagePost(Necsus, pinned, botRows, room, author, text, o).world.calls == w.calls
  {
    var reply := Sanitize(room, bot, body).value;
    SanitizedPostable(room, bot, body);
    SanitizeValues(room, bot, body);
    SanitizedRenderable(room, bot, body);
    PostAppends(Necsus, w, room, reply, o);
    var pinned := AfterPost(Necsus, w, room, reply, o);
    var pin := Db.Pin(PyNone, reply["state"]);
    Db.RoomStateAfterStore(w.messages, reply, o.now, room);
    Db.StoreMessageAppends(w.messages, reply, o.now);
    assert pinned.messages.rows == Db.StoreMessage(w.messages, reply, o.now).0.rows;
    assert Get(reply, "state", PyNone) == reply["state"] != PyNone && Get(reply, "from_bot", PyNone) == PyNone;
    assert RoomStateOf(Necsus, pinned.messages.rows, room) == Ok(Some(pin));
    NoBotForNone(botRows);
    UnresolvedPin(Necsus, pinned, botRows, room, author, text, o, pin);
  }

  /** A sanitised reply can be written exactly when its author is a literal, and, in db.py,
      so are its state and `reply_to` when it has them: its text, room, image and media are
      str, and necsus/db.py writes the state as JSON text and drops `reply_to`. */
  lemma SanitizedRenderable(room: string, bot: Row, body: Value)
    requires Sanitize(room, bot, body).Some?
    ensures var reply := Sanitize(room, bot, body).value;
      "author" in reply
      && (Db.Renderable(reply) <==> Literal(reply["author"]))
      && (LegacyDb.Renderable(reply) <==>
            Literal(reply["author"])
            && ("state" in reply ==> "reply_to" in reply && Literal(reply["state"]) && Literal(reply["reply_to"])))
  {
    var reply := Sanitize(room, bot, body).value;
    SanitizeKeys(room, bot, body);
    SanitizeValues(room, bot, body);
    RenderableOf(reply);
    NecsusRenderableOf(reply);
  }

  /** In necsus a reply within the whitelist whose text, room, image and media are str can be
      written exactly when its author is a literal. */
  lemma NecsusRenderableOf(reply: Row)
    requires reply.Keys <= SafeKeys && "author" in reply
    requires "text" in reply ==> IsStr(reply["text"])
    requires "room" in reply ==> IsStr(reply["room"])
    requires "image" in reply ==> IsStr(reply["image"])
    requires "media" in reply ==> IsStr(reply["media"])
    ensures Db.Renderable(reply) <==> Literal(reply["author"])
  {
    assert "author" in Db.MessageColumns;
    assert "when"[0] == 'w' && "author"[0] == 'a' && "state"[0] == 's';
    if Literal(reply["author"]) {
      assert "reply_to" !in Db.MessageColumns by {
        assert "reply_to"[0] == 'r' && "reply_to"[1] == 'e' && "room"[1] == 'o';
      }
      forall k | k in reply && k in Db.MessageColumns && k != "when" && k != "state"
        ensures Literal(reply[k])
      {
        assert k in SafeKeys;
        if k == "text" || k == "room" || k == "image" || k == "media" {
          assert IsStr(reply[k]);
        } else {
          assert k == "author";
        }
      }
    }
  }

  /** A reply within the whitelist whose text, room, image and media are str can be written
      exactly when its author, state and `reply_to` are literals. */
  lemma RenderableOf(reply: Row)
    requires reply.Keys <= SafeKeys && "author" in reply && ("state" in reply <==> "reply_to" in reply)
    requires "text" in reply ==> IsStr(reply["text"])
    requires "room" in reply ==> IsStr(reply["room"])
    requires "image" in reply ==> IsStr(reply["image"])
    requires "media" in reply ==> IsStr(reply["media"])
    ensures LegacyDb.Renderable(reply) <==>
      Literal(reply["author"])
      && ("state" in reply ==> Literal(reply["state"]) && Literal(reply["reply_to"]))
  {
    assert "author" in LegacyDb.MessageColumns && "state" in LegacyDb.MessageColumns && "reply_to" in LegacyDb.MessageColumns;
    assert "when"[0] == 'w' && "author"[0] == 'a' && "state"[0] == 's' && "reply_to"[0] == 'r';
    if Literal(reply["author"])
       && ("state" in reply ==> Literal(reply["state"]) && Literal(reply["reply_to"])) {
      forall k | k in reply && k in LegacyDb.MessageColumns && k != "when"
        ensures Literal(reply[k])
      {
        assert k in SafeKeys;
        if k == "text" || k == "room" || k == "image" || k == "media" {
          assert IsStr(reply[k]);
        } else {
          assert k == "author" || k == "state" || k == "reply_to";
        }
      }
    }
  }

  /** The example bot keeps its conversation as a list state. In db.py that reply is never
      stored: `trigger_bot` raises OperationalError after the request, nothing is published,
      and the room's pin stays what it was. */
  lemma LegacyListStateNotStored(w: World, room: string, author: string, text: string,
                                 bot: Row, params: Row, state: Value, o: Oracles, body: Value)
    requires Ready(Legacy, w)
    requires Sanitize(room, bot, body).Some?
    requires RunBot(room, bot, text, params, Str(author), state, o.post) == Ok(Sanitize(room, bot, body))
    requires "state" in body.entries && (body.entries["state"].List? || body.entries["state"].Dict?)
    ensures var called := w.(calls := w.calls + RequestCalls(Request(room, bot, text, params, Str(author), state)));
      var s := TriggerBot(Legacy, w, room, author, text, bot, params, state, o);
      s == Step(called, Raised(OperationalError))
      && RoomStateOf(Legacy, s.world.messages.rows, room) == RoomStateOf(Legacy, w.messages.rows, room)
  {
    var reply := Sanitize(room, bot, body).value;
    SanitizeKeys(room, bot, body);
    SanitizeValues(room, bot, body);
    SanitizedRenderable(room, bot, body);
    assert "text" in reply;
    TriggerBotUnstorable(Legacy, w, room, author, text, bot, params, state, o, reply);
  }

  /** In db.py a reply whose state is a str or an int pins the room to the bot that gave it:
      the next message in the room goes to that bot alone, with the state it left. */
  lemma LegacyPinRoutes(w: World, botRows: seq<Row>, room: string, author: string, text: string,
                        bot: Row, body: Value, o: Oracles)
    requires Ready(Legacy, w)
    requires Sanitize(room, bot, body).Some?
    requires var reply := Sanitize(room, bot, body).value; reply["room"] == Str(room) && "state" in reply
    requires var st := Sanitize(room, bot, body).value["state"]; st.Str? || st.Int?
    requires Literal(BotName(bot))
    requires "id" in bot && bot["id"] != PyNone && Literal(bot["id"])
    requires Db.FindAll(botRows, map["id" := bot["id"]]) == [bot]
    ensures Ready(Legacy, AfterPost(Legacy, w, room, Sanitize(room, bot, body).value, o))
    ensures var reply := Sanitize(room, bot, body).value;
      var pinned := AfterPost(Legacy, w, room, reply, o);
      RoomStateOf(Legacy, pinned.messages.rows, room) == Ok(Some(Db.Pin(bot["id"], reply["state"])))
      && TriggerMessagePost(Legacy, pinned, botRows, room, author, text, o).world.calls
         == w.calls + RequestCalls(Request(room, bot, text, map[], Str(author), reply["state"]))
  {
    var reply := Sanitize(room, bot, body).value;
    SanitizedPostable(room, bot, body);
    SanitizeValues(room, bot, body);
    SanitizedRenderable(room, bot, body);
    PostAppends(Legacy, w, room, reply, o);
    var pinned := AfterPost(Legacy, w, room, reply, o);
    var pin := Db.Pin(bot["id"], reply["state"]);
    LegacyDb.RoomStateAfterStore(w.messages, reply, o.now, room);
    assert pinned.messages.rows == LegacyDb.StoreMessage(w.messages, reply, o.now).0.rows;
    assert Get(reply, "reply_to", PyNone) == reply["reply_to"] == bot["id"] != PyNone;
    assert Get(reply, "state", PyNone) == reply["state"];
    assert RoomStateOf(Legacy, pinned.messages.rows, room) == Ok(Some(pin));
    PinnedRoute(Legacy, pinned, botRows, room, author, text, o, pin, bot);
  }

  /** Clearing the state of an unpinned room does nothing. */
  lemma ClearStateUnpinned(schema: Schema, w: World, room: string, o: Oracles)
    requires Ready(schema, w) && RoomStateOf(schema, w.messages.rows, room) == Ok(None)
    ensures TriggerClearRoomState(schema, w, room, o) == Step(w, Ok(PyNone))
  {
  }

  /** Clearing the state of a pinned room posts one NeCSuS message. */
  lemma ClearStatePosts(schema: Schema, w: World, room: string, o: Oracles)
    requires Ready(schema, w) && RoomStateOf(schema, w.messages.rows, room).Ok?
    requires RoomStateOf(schema, w.messages.rows, room).value.Some?
    ensures TriggerClearRoomState(schema, w, room, o) == Step(AfterPost(schema, w, room, ClearedNotice(room), o), Ok(PyNone))
  {
    ComposedStorable(schema, room, "", "");
    PostAppends(schema, w, room, ClearedNotice(room), o);
  }

  /** That message unpins the room. */
  lemma ClearStateUnpins(schema: Schema, w: World, room: string, o: Oracles)
    requires Ready(schema, w) && RoomStateOf(schema, w.messages.rows, room).Ok?
    requires RoomStateOf(schema, w.messages.rows, room).value.Some?
    ensures RoomStateOf(schema, TriggerClearRoomState(schema, w, room, o).world.messages.rows, room) == Ok(None)
  {
    ClearStatePosts(schema, w, room, o);
    NoticeUnpins(schema, w.messages, o.now, room);
  }

  /** Storing the NeCSuS message unpins the room: it carries no state and answers no bot. */
  lemma NoticeUnpins(schema: Schema, t: Db.TableState, now: Stamp, room: string)
    requires Db.WellFormed(Columns(schema), t)
    ensures RoomStateOf(schema, t.rows + [StoredRow(schema, t, ClearedNotice(room), now)], room) == Ok(None)
  {
    var notice := ClearedNotice(room);
    assert "id" !in notice && "state" !in notice && "reply_to" !in notice && notice["room"] == Str(room);
    match schema
    case Necsus =>
      Db.RoomStateAfterStore(t, notice, now, room);
      Db.StoreMessageAppends(t, notice, now);
    case Legacy =>
      LegacyDb.RoomStateAfterStore(t, notice, now, room);
  }

  /** Clearing a room's messages removes every message of that room and no other, records
      the last id the room had as its marker, and publishes one clear event to it. */
  lemma ClearMessagesEmptiesRoom(w: World, room: string)
    requires Ready(Necsus, w) && Db.Last(w.messages.rows, room).Some?
    ensures var s := TriggerClearRoomMessages(w, room);
      (forall x :: x in s.world.messages.rows ==> !Db.InRoom(x, Str(room)))
      && (forall x :: x in s.world.messages.rows <==> x in w.messages.rows && !Db.InRoom(x, Str(room)))
      && Db.Marker(s.world.clears.rows, room) == Some(Int(Db.IdOf(Db.Last(w.messages.rows, room).value)))
      && s.world.published == w.published + [(room, Broker.ClearEvent)]
      && s.world.calls == w.calls
  {
    var s := TriggerClearRoomMessages(w, room);
    forall x ensures Db.Matches(x, map["room" := Str(room)]) <==> Db.InRoom(x, Str(room)) {
      Db.MatchesRoom(x, Str(room));
    }
    Db.MarkClearedSetsMarker(w.clears, room, Db.IdOf(Db.Last(w.messages.rows, room).value));
  }

  /** Clearing a room leaves every other room's marker as it was. */
  lemma ClearMessagesKeepsOtherMarkers(w: World, room: string, other: string)
    requires Ready(Necsus, w) && other != room
    ensures Db.Marker(TriggerClearRoomMessages(w, room).world.clears.rows, other) == Db.Marker(w.clears.rows, other)
  {
    if Db.Last(w.messages.rows, room).Some? {
      Db.MarkClearedKeepsOthers(w.clears, room, Db.IdOf(Db.Last(w.messages.rows, room).value), other);
    }
  }

  /** Clearing a room without messages changes nothing: no marker, no event. */
  lemma ClearEmptyRoom(w: World, room: string)
    requires Ready(Necsus, w) && Db.Last(w.messages.rows, room).None?
    ensures TriggerClearRoomMessages(w, room) == Step(w, Ok(Str(room)))
  {
  }
}
