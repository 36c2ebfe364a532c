# NeCSuS chat relay, modelled in Dafny

NeCSuS is a chat server for rooms of humans and bots. A human's message is stored in a room
and broadcast to the room's viewers. It is then handed to the room's bots: to every bot whose
pattern matches it or, when the room is *pinned* by an earlier bot reply that carried a state,
to the pinned bot alone. Each bot is an HTTP endpoint. Its JSON reply goes through a
whitelist and is stored and broadcast in turn. Viewers join over a websocket. Each gets a
queue of events seeded with the room's bots and its messages after a cursor, told first to
clear what it shows when the room was cleared since that cursor.

The project models this relay with its three foreign parts replaced:

- the SQLite database by in-memory tables;
- the regular-expression engine by an oracle `search`;
- the HTTP client by an oracle `post`.

It covers both generations of the code: `necsus/` and the older top-level `events.py`,
`bots.py` and `db.py`.

| file | module | what it holds |
|---|---|---|
| `values.dfy` | `Values` | Python values, `Option`/`Result`, the exceptions that escape, and str pieces (`int()`, `str()`, `repr()`, `rstrip`, `isspace`) |
| `db.dfy` | `Db` | the store of necsus/db.py: queries as functions of a table's state, changes as functions from state to state, and the class `Table` whose methods apply them |
| `legacy_db.dfy` | `LegacyDb` | the differences in db.py: `Messages.new` as a loop, `add`, `room_state`, `update_or_add`, `remove` |
| `broker.dfy` | `Broker` | the class `Broker` of necsus/broker.py: per-room subscriber sets and the event queues |
| `bot_client.dfy` | `BotClient` | `run_bot` / `bots.run`: the request envelope, the timeout and status notices, and the reply whitelist |
| `events.dfy` | `Events` | the `trigger_*` functions of both events files, as functions from a world (tables, publications, foreign calls) to the next world |
| `events_props.dfy` | `EventProps` | what those functions guarantee: storage order, routing, pinning, clearing |
| `dispatcher.dfy` | `Dispatcher` | the class `Relay`: the `trigger_*` functions run imperatively against `Table` and `Broker` objects, each proved to do what `Events` says |
| `commands.dfy` | `Commands` | `commands.parse` |
| `server.dfy` | `Server` | the `since` defaulting of the API and the websocket, the replay-cursor rule of `on_connect`, and the class `WebSocketRoom` |

Modelling choices that matter when reading the contracts:

- **Tables.** A table is a sequence of rows in ascending `id` order plus the AUTOINCREMENT
  high-water mark. Every stored row holds a value, possibly None, for every column.
  - Messages have the `allowed_keys` columns.
  - Clears have `id`, `room` and `last_cleared_id`.
  - Every table has an integer primary key `id`. A missing or None id gets the next one.
  - SQL `column = value` is never true when either side is NULL, which is what pypika
    renders for a None keyword.
- **SQL text.** Both stores write every value into the SQL text through pypika instead of
  binding it. pypika writes a list as `[...]`, which SQLite reads as a quoted column name,
  and a dict as its Python `str`. So an INSERT holding either raises OperationalError and
  writes nothing (`Db.Insert`), as does the lookup of `add_if_new`. necsus/db.py writes a
  message's state as its JSON text, so there only the other columns can fail.
- **Foreign services.** `Events.Oracles` holds the two oracles and the clock reading
  `now`.
  - `search` answers `Invalid`, `NoMatch` or `Match(groups)`.
  - `post` answers `TimedOut(Connect|Read|Other)`, `Answered(status, body)` or
    `PostFailed`. The body is `None` when `reply.json()` would raise.
- **Exceptions.** Exceptions the source does not catch become `Raised(e)` and end the
  operation, as in Python. The tables and queues keep whatever was done before the raise.
- **Effects.** The events functions record every foreign call in `World.calls` and every
  broadcast in `World.published`. `Dispatcher.Relay` proves that its `Broker` queues equal
  the published events delivered to each room's subscribers.
- **Pinning differs between the two generations.** necsus/events.py sets `reply_to` on a
  bot reply, but necsus/db.py does not store `reply_to` and its `room_state` reads
  `from_bot`, which nothing sets. db.py stores and reads `reply_to`. The model keeps both
  as written. `EventProps.NecsusPinIsLost` proves the consequence in necsus: after a bot
  replies with a state, the room is pinned to bot None, and the next message reaches no bot
  at all. `EventProps.LegacyPinRoutes` proves that in db.py a reply whose state is a str or
  an int routes the next message to that bot alone. db.py writes the state into the SQL
  text as it is, not as JSON text, so a list or dict state makes the INSERT raise
  OperationalError. `EventProps.LegacyListStateNotStored` proves that such a reply is
  never stored, and the room is never pinned. The example bot's list state is this case.

## Model

| member | source | states |
|---|---|---|
| Db.FindAll | necsus/db.py:16-31 | the rows returned are exactly the stored rows matching every keyword equality (NULL never matches), in stored order, so ascending ids stay ascending |
| Db.Find | necsus/db.py:16-28 | None exactly when no row matches; otherwise the first matching row in stored order |
| Db.FindAllNone | necsus/db.py:16-31 | with no matching row, `find_all` returns the empty list |
| Db.Since | necsus/db.py:107-119 | exactly the room's rows with id greater than the cursor, ascending |
| Db.LastBy | necsus/db.py:121-134 | None exactly when the room has no row; otherwise a row of the room, and in id-ascending rows (as the store keeps them) the one with the largest id |
| Db.Last | necsus/db.py:121-134 | `last(room)` is `LastBy` of the room's name as a str |
| Db.LastByAppend | necsus/db.py:121-149 | a row appended to a room becomes that room's last row |
| Db.Insert | necsus/db.py:33-48 | an INSERT raises OperationalError exactly when a value is a list or dict; it violates the primary key exactly when the values can be written and the given id is not None and is a non-integer or already taken; otherwise the table stays well formed and gains exactly the completed row; with no id it gets id = high-water mark + 1 and goes last |
| Db.AddRow | necsus/db.py:33-38 | `add` hands back the keyword arguments; it raises IntegrityError exactly on a primary-key violation and OperationalError exactly on a list or dict value, leaving the table as it was |
| Db.Table.Add | necsus/db.py:33-38 | the table's new state and the answer are those of `AddRow` on the old state |
| Db.UpsertRow | necsus/db.py:40-60 | OperationalError escapes `update_or_add` exactly when a value is a list or dict, with the table unchanged; otherwise it answers with what `find` returns |
| Db.UpsertRowInserts | necsus/db.py:40-60 | `update_or_add` with a fresh id inserts, and hands back exactly the stored row with that id |
| Db.UpsertRowUpdates | necsus/db.py:40-60 | with an integer id in use and writable values, the INSERT fails and the row with that id, and no other, takes the new values, and the answer is the updated row; with a list or dict value it raises OperationalError and nothing changes; the high-water mark and row count are unchanged either way |
| Db.UpsertRowBadId | necsus/db.py:40-60 | with an id that is neither None nor an int, nothing changes, and `find` answers None, or OperationalError escapes for a list or dict value |
| Db.Table.UpdateOrAdd | necsus/db.py:40-60 | the table's new state and the answer are those of `UpsertRow` on the old state |
| Db.InsertIfNew | necsus/db.py:62-81 | a list or dict value raises OperationalError at the lookup with the table unchanged; when some row matches every given column the table is unchanged; otherwise the call is an `add`; the answer is the keyword arguments |
| Db.InsertIfNewIdempotent | necsus/db.py:62-81 | with no None argument, a second `add_if_new` with the same arguments changes nothing and answers the same |
| Db.Table.AddIfNew | necsus/db.py:62-81 | the table's new state and the answer are those of `InsertIfNew` on the old state |
| Db.DeleteRows | necsus/db.py:83-93 | the rows kept are exactly those not matching the filter; order and the high-water mark are kept |
| Db.Table.Delete | necsus/db.py:83-93 | the table becomes `DeleteRows` of the old state and the call answers None (a DELETE yields no row to fetch) |
| Db.RemoveRow | necsus/db.py:95-100 | exactly the row(s) with that id are removed; the answer is true iff some row had that id |
| Db.Table.Remove | necsus/db.py:95-100 | the table's new state and the answer are those of `RemoveRow` on the old state |
| Db.PrepareMessage | necsus/db.py:105-146 | the inserted row has the message's keys plus `when`, cut to the allowed columns, `when` is the clock value, a non-None state is replaced by its JSON text, every other value is copied |
| Db.Dumps | necsus/db.py:140-141 | the stored state is NULL exactly when the message's state is None |
| Db.LoadsDumps | necsus/db.py:140-164 | a non-None state decodes back to itself |
| Db.PreparedWritable | necsus/db.py:137-147 | the inserted row can be written exactly when no column other than `when` and `state` holds a list or dict: the state is written as JSON text |
| Db.StoreMessage | necsus/db.py:137-149 | a message with a list or dict value outside `when` and `state` raises OperationalError and stores nothing |
| Db.StoreMessageAppends | necsus/db.py:137-149 | a writable message with a room and no id is appended as one row with the next id, and `add` answers with exactly that stored row |
| Db.Table.AddMessage | necsus/db.py:137-149 | the table's new state and the answer are those of `StoreMessage` on the old state |
| Db.RoomState | necsus/db.py:152-164 | None for a room without rows or whose last row's state is None; for a JSON state, the last row's `from_bot` with the decoded state; JsonDecodeError for other state text and KeyError for a row without the column |
| Db.RoomStateAfterStore | necsus/db.py:137-164 | after storing a writable message in a room, `room_state` is None if the message's state was None, and otherwise the message's `from_bot` with exactly the state it carried |
| Db.MarkClearedSetsMarker | necsus/db.py:174-181 | after `set_last_cleared_id(room, k)` the room's marker, as `find(room=room)` reads it, is k |
| Db.MarkClearedKeepsOthers | necsus/db.py:174-181 | `set_last_cleared_id` leaves the marker of every other room as it was |
| Db.MarkClearedRows | necsus/db.py:174-181 | a room without a clears row gains one appended row; otherwise the room's rows are UPDATEd |
| Db.Table.SetLastClearedId | necsus/db.py:174-181 | the table becomes `MarkCleared` of the old state and stays well formed |
| LegacyDb.UpsertRow | db.py:41-62 | the table changes as in necsus's `update_or_add`, but the answer is the keyword arguments unchanged, or OperationalError for a list or dict value |
| LegacyDb.UpdateOrAdd | db.py:41-62 | the table's new state and the answer are those of `LegacyDb.UpsertRow` |
| LegacyDb.RemoveRow | db.py:97-102 | the same DELETE as necsus, answering None |
| LegacyDb.Remove | db.py:97-102 | the table's new state and the answer are those of `LegacyDb.RemoveRow` |
| LegacyDb.SkipThrough | db.py:114-119 | nothing when no row's id text equals the cursor text; otherwise exactly the rows after the first row whose id text equals it |
| LegacyDb.New | db.py:109-119 | the loop with its `after_old_message` flag yields exactly `AfterCursor`: all the filtered rows for a None cursor, else the rows after the first whose `str(id)` equals `str(since_id)` |
| LegacyDb.AfterCursorIsSince | db.py:109-119 | when the cursor is the id of a stored row, `new` yields the later rows, which are exactly those with a greater id |
| LegacyDb.AfterUnknownCursor | db.py:114-119 | a cursor that no row's id reads as yields nothing |
| LegacyDb.PrepareMessage | db.py:107-129 | the inserted row has the message's keys plus `when`, cut to db.py's allowed columns, values copied |
| LegacyDb.PreparedWritable | db.py:121-131 | the inserted row can be written exactly when no column other than `when` holds a list or dict |
| LegacyDb.StoreMessage | db.py:121-133 | a list or dict value in a stored column raises OperationalError and leaves the table as it was; otherwise `add` answers the whole message with `when` added, stored columns or not, and without an id the prepared row is appended with the next id |
| LegacyDb.AddMessage | db.py:121-133 | the table's new state and the answer are those of `LegacyDb.StoreMessage` |
| LegacyDb.RoomState | db.py:136-147 | None for a room without rows or whose last row's `reply_to` is None; otherwise that row's `reply_to` and `state`, undecoded; KeyError for a row without the column |
| LegacyDb.RoomStateAfterStore | db.py:121-147 | after storing a message that db.py can write, `room_state` is None if its `reply_to` was None, and otherwise its `reply_to` with its state |
| Broker.Broker.constructor | necsus/broker.py:13-14 | a broker starts with no rooms and no queues |
| Broker.Broker.NotifyRoom | necsus/broker.py:16-19 | the loop appends the event to every queue registered under the room and to no other; no room entry is created; the subscriber sets are unchanged |
| Broker.Broker.PublishMessage | necsus/broker.py:21-23 | one `message` event carrying the message, to the room's queues only |
| Broker.Broker.ClearRoom | necsus/broker.py:25-27 | one `clear_messages` event with empty data, to the room's queues only |
| Broker.Broker.PutBot | necsus/broker.py:29-31 | one `put_bot` event carrying the bot, to the room's queues only |
| Broker.Broker.DeleteBot | necsus/broker.py:33-35 | one `delete_bot` event carrying the bot, to the room's queues only |
| Broker.Broker.Subscribe | necsus/broker.py:37-58 | registers one fresh queue under the room, seeds it with `Seed`, returns the tag (room, queue), and leaves every other queue and room as it was |
| Broker.Broker.SendAll | necsus/broker.py:52-56 | the `send_nowait` loop appends one wrapped event per item, in order |
| Broker.SeedOrder | necsus/broker.py:49-56 | a seed opens with a clear event exactly when one was asked for, then holds one `put_bot` per bot and one `message` per message in their order, and no later kind comes before an earlier one |
| Broker.Broker.Unsubscribe | necsus/broker.py:60-63 | the queue is closed and removed from its room's set, every other queue and set is unchanged; `removed` is false where `set.remove` raises |
| Broker.UnsubscribeTwice | necsus/broker.py:60-63 | after an unsubscribe the queue is no longer in its room's set, so a second `remove` raises |
| Broker.DeliverContents | necsus/broker.py:16-19 | a run of notifications appends exactly those events, in order, to each targeted queue, and nothing to the others |
| Broker.BroadcastContents | necsus/broker.py:16-35 | publishing creates no queue and appends to each queue exactly the published events of the rooms it is subscribed to, in publish order |
| Broker.EventsForRoom | necsus/broker.py:16-19 | a queue registered under one room alone receives exactly what is published to that room, in order |
| Broker.PublishesFollowSeed | necsus/broker.py:16-58 | later publishes to the room land behind the subscriber's seed, in publish order |
| BotClient.Request | necsus/events.py:89-102 | no request without a truthy url; otherwise a request to that url with the envelope |
| BotClient.Envelope | necsus/events.py:94-102 | the envelope has `room`, `author`, `text` and `params`, plus `state` exactly when the state is not None |
| BotClient.NoUrlNoRequest | necsus/events.py:91-93 | with a falsy url the run answers None whatever the network would have done |
| BotClient.Respond | necsus/events.py:104-158 | the run raises exactly on a non-timeout request failure or a 200 whose body is not JSON |
| BotClient.RunBot | necsus/events.py:89-158 | without a url no request is made and the answer is None; with one, the answer is what comes of posting that envelope to that url |
| BotClient.TimeoutNotice | necsus/events.py:104-119 | a timeout becomes a `necsus` notice to the invoking room naming the bot's repr and 3.05 (connect), 42 (read) or "a few" second(s) |
| BotClient.StatusNotice | necsus/events.py:153-158 | a status other than 200 becomes a `necsus` notice to the room containing the bot's repr and the status code |
| BotClient.RejectedReply | necsus/events.py:125-129 | a 200 body that is not a dict with a str `text` yields no message |
| BotClient.Sanitize | bots.py:38-67 | None exactly when the body is not a dict with a str `text`; otherwise the message built key by key; `run` of bots.py is the same code as `run_bot`, and both are this one function |
| BotClient.SanitizeKeys | necsus/events.py:123-151 | a sanitised reply has no key outside {text, author, room, state, reply_to, image, media}; it always has text, author and room; it has state and reply_to exactly when the reply's state is not None; it has image and media exactly when they are str |
| BotClient.SanitizeValues | necsus/events.py:127-149 | text is copied; author is the reply's if a str, else the bot's name (default 'bot'); room is the reply's if a str, else the invoking room; state is copied with the bot's id as reply_to; image and media are copied |
| BotClient.SanitizedShape | necsus/events.py:122-151 | whatever a 200 JSON body holds, a message that results has only whitelisted keys and a str text, and every key but author, room and reply_to is copied from the reply |
| BotClient.SanitizedCopies | necsus/events.py:127-149 | the keys other than author, room and reply_to are copied unchanged from the reply |
| Events.TriggerClearRoomMessages | necsus/events.py:78-84 | keeps the tables well formed and always answers with the room |
| EventProps.PinReadFirst | necsus/events.py:10-12 | `room_state` is read before anything is stored: when it raises, nothing is stored, published or called |
| EventProps.MessagePostSteps | necsus/events.py:10-26 | once the pin is read, the human message is stored and published, then routed, and the answer is what `add` handed back, unless routing raised |
| EventProps.MessageStoredFirst | necsus/events.py:10-26 | every later effect of the call comes after the stored and published human message; the world only grows from there |
| EventProps.PostAppends | necsus/events.py:70-76 | storing and publishing a postable message that the store can write appends one row with the next id and one `message` event to the room, and answers with what `add` handed back |
| EventProps.PinnedRoute | necsus/events.py:15-22 | in a pinned room whose pin names exactly one bot, the only foreign call is that bot's request with params {} and the pinned state; no pattern is searched |
| EventProps.UnresolvedPin | necsus/events.py:15-19 | a pin that does not name exactly one bot stores and publishes the message and calls nothing |
| EventProps.UnpinnedRoute | necsus/events.py:23-65 | in an unpinned room, the calls are at most the full round over the room's bots in `find_all` order; when no exception ends it, they are exactly that round |
| EventProps.BotStepCalls | necsus/events.py:47-65 | one turn searches the bot's pattern (`responds_to` if truthy, else `name`) once and, when the bot fires and has a url, posts the named groups as params; the world only grows |
| EventProps.BotsFromCalls | necsus/events.py:42-67 | a round that raises nothing searches every bot once, in order, and posts to exactly the bots that fire and have a url |
| EventProps.BotsFromCallsPrefix | necsus/events.py:42-67 | a round cut short by an exception made a prefix of those calls |
| EventProps.PostUnstorable | necsus/db.py:137-147 | in either store a message the store cannot write raises OperationalError, and nothing is stored or published |
| EventProps.TriggerBotUnstorable | events.py:71-77 | a truthy reply the store cannot write makes `trigger_bot` raise OperationalError after its request, with nothing stored or published |
| EventProps.SanitizedRenderable | db.py:127-131 | either store can write a sanitised reply exactly when its author is a literal, and db.py also needs its state and `reply_to` to be literals when it has them |
| EventProps.LegacyListStateNotStored | events.py:71-77 | in db.py a reply with a list or dict state, like the example bot's, raises OperationalError and leaves the room's pin as it was |
| EventProps.TriggerBotStores | necsus/events.py:70-76 | a truthy reply that the store can write is stored and then published to the invoking room, even when the reply names another room, and the call answers with what `add` handed back |
| EventProps.TriggerBotNoReply | necsus/events.py:70-76 | without a truthy reply nothing is stored or published: a failed request raises its error, and a missing or empty reply raises UnboundLocalError |
| EventProps.InvalidPatternNotice | necsus/events.py:49-61 | a pattern that raises costs exactly one stored and published `necsus` notice, containing the bot's repr and the name of the field the pattern came from, and the loop goes on |
| EventProps.TriggerBotCalls | necsus/events.py:70-76 | a bot run makes its one request, or none without a url, and otherwise only appends: at most one stored row and at most one publication |
| EventProps.RepliesPostable | necsus/events.py:89-158 | every message a bot run hands to `add` names a room and carries no id |
| EventProps.SanitizedPostable | necsus/events.py:141-143 | a sanitised reply has no `from_bot`, and any state it carries is not None and comes with the bot's id as `reply_to` |
| EventProps.NecsusPinIsLost | necsus/events.py:10-26 | in necsus a reply with a state, from a bot whose name is a literal, pins its room to bot None (necsus/db.py stores no `reply_to`), so the next message in the room reaches no bot at all |
| EventProps.LegacyPinRoutes | events.py:11-23 | in db.py a reply whose state is a str or an int pins the room to the replying bot, and the next message goes to that bot alone with the state it left |
| EventProps.NoBotForNone | necsus/events.py:17 | `find_all(id=None)` finds no bot |
| EventProps.ClearStateUnpinned | necsus/events.py:29-33 | clearing the state of an unpinned room does nothing |
| EventProps.ClearStatePosts | necsus/events.py:29-39 | clearing the state of a pinned room stores and publishes one `NeCSuS` message |
| EventProps.ClearStateUnpins | necsus/events.py:29-39 | after that message the room is unpinned |
| EventProps.ClearMessagesEmptiesRoom | necsus/events.py:78-84 | clearing a room with messages removes every message of that room and no other, sets the room's marker to the last id it had, and publishes one clear event to it |
| EventProps.ClearMessagesKeepsOtherMarkers | necsus/events.py:78-84 | clearing a room leaves every other room's marker as it was |
| EventProps.ClearEmptyRoom | necsus/events.py:78-84 | clearing a room without messages changes nothing and answers with the room |
| Dispatcher.Relay.Post | necsus/events.py:70-76 | stores the message in the schema's table and publishes what `add` answered to the room's queues, as `Events.Post` says |
| Dispatcher.Relay.TriggerBot | necsus/events.py:70-76 | the tables and queues end as `Events.TriggerBot` says, and the answer is its answer |
| Dispatcher.Relay.TriggerBots | necsus/events.py:42-67 | the loop over the room's bots gathers the replies and stops at the first exception, ending as `Events.TriggerBots` says |
| Dispatcher.Relay.TriggerMessagePost | necsus/events.py:10-26 | the tables and queues end as `Events.TriggerMessagePost` says of the old state, and the answer is its answer |
| Dispatcher.Relay.TriggerClearRoomState | necsus/events.py:29-39 | ends as `Events.TriggerClearRoomState` says of the old state |
| Dispatcher.Relay.TriggerClearRoomMessages | necsus/events.py:78-84 | marker, deletion and clear event as `Events.TriggerClearRoomMessages` says of the old state; answers the room |
| Commands.Parse | commands.py:5-13 | None exactly when the text does not start with '/'; the command holds no whitespace; a non-empty argument starts with a non-space and text == "/" + command + ws + argument for a non-empty whitespace run ws; an empty argument means the command is `text[1:].rstrip()` |
| Commands.ParseOfCommandLine | commands.py:6-9 | conversely, "/" + command + ws + argument with such parts parses back into exactly that command and argument |
| Commands.ParseOfBareCommand | commands.py:6-11 | a lone command with trailing whitespace parses to that command and '' (so "/" parses to ('', '')) |
| Values.RStrip | commands.py:11 | `rstrip` removes exactly a trailing whitespace run, as `str.isspace` defines whitespace |
| Values.ParseIntOfIntToString | necsus/server.py:100-104 | `int()` reads a decimal integer written by `str()` back as that integer |
| Server.SinceDefaultsAgree | necsus/server.py:225-230 | the API and the websocket read the same cursor from the same parameter, and it is -1 exactly when the parameter is absent, not an integer, or -1 |
| Server.SinceOfInt | necsus/server.py:100-104 | a cursor given as an integer is read as that integer by both endpoints |
| Server.ApiMessages | necsus/server.py:91-107 | a missing room is a bad request; otherwise the answer is exactly the room's messages with id above the cursor, in ascending order |
| Server.ReplayCursor | necsus/server.py:232-238 | raises TypeError exactly for a marker that is neither None nor an int; `should_clear` holds iff the marker is an int at or after the cursor; the new cursor is the larger of the two |
| Server.ReplayAfterMarker | necsus/server.py:232-241 | the replay is exactly the room's messages after both the requested cursor and the room's marker |
| Server.JoinAfterClear | necsus/server.py:232-241 | after clearing a room, a viewer joining with a cursor up to the old last id is told to clear and replays nothing |
| Server.WebSocketRoom.OnConnect | necsus/server.py:219-247 | records the room; the answer is `ReplayCursor` of the cursor and the room's marker; on success, one fresh queue under the room seeded with the clear flag, all the room's bots and `since(room, cursor)`, and the tag is kept; on TypeError the broker is untouched |
| Server.WebSocketRoom.OnDisconnect | necsus/server.py:251-253 | unsubscribes with the tag from connect; AttributeError without one; KeyError when the queue was already gone |
| Server.WebSocketRoom.Visit | necsus/server.py:219-253 | a connect followed by a disconnect: a connect that raised leaves the broker untouched and is not followed by a disconnect; one that succeeded disconnects cleanly, closes its queue, and leaves every room with the subscribers it had |
| Server.ConnectThenDisconnect | necsus/server.py:242-253 | connecting and then disconnecting leaves every room with the subscribers it had |

## Left out

- HTTP and framework plumbing (request parsing, responses, middleware, the `lifespan`, the database connection), api.py, frontend.py, interactivity.py, `commands.run`, necsus.py, server.py and necsus/__main__.py: request handling and I/O, not relay logic.
- `ws.accept()`, `asyncio.create_task`, `message_pump` and the anyio streams: concurrency and I/O. A queue is modelled as the sequence of events sent into it; receiving and closing the stream's read end are not modelled.
- ws.py, the async-generator broker that the legacy events.py imports: its point is suspension and cleanup. It has only `publish`, not the `publish_message` and `clear_room` that events.py calls. The legacy events functions are modelled against the necsus broker instead, as if those calls succeeded.
- Legacy `trigger_clear_room_messages` (events.py:79-85) is modelled only against the necsus store. db.py's `Messages` has no `last` and its `DB` no `clears`, so against db.py the call would raise AttributeError; `Dispatcher.Relay.TriggerClearRoomMessages` requires the necsus schema for this reason.
- The regular-expression engine and the HTTP client: foreign code, replaced by the oracles `search` and `post`. Case-insensitive matching is the oracle's business. No regex timeout is invented.
- The clock: `time.time()` and db.py's Sydney local-time formatting become the `now` value in `Oracles`. One `now` serves a whole operation, while the source reads the clock at each `add`.
- The characters of a JSON text: `json.dumps(state)` is the value `JsonText(state)`, and `json.loads` decodes only what it encoded. Other stored text raises JsonDecodeError.
- `repr()` of values other than None, bools, ints and strs is not written out character by character. The notices are proved to contain the bot's repr whatever it is.
- SQLite type affinity and rowid reuse: the model's ids are the AUTOINCREMENT kind, never reused, and rows are kept in id order.
- The broker is a parameter of the events functions and of `Relay`, not a module-level singleton.
- Broker.Broker.Unsubscribe: requires the tag's queue to exist and to be registered under no other room than the tag's. Every tag `Subscribe` hands out meets this, and `Server.WebSocketRoom.Attached` carries it from connect to disconnect.
- Server.WebSocketRoom.OnDisconnect: requires `Attached`, for the same reason.
- Server.ReplayCursor: a Bool marker raises TypeError in the model, while Python compares a bool with an int as 0 or 1. The clears table only ever stores int markers (`set_last_cleared_id` is given a message id).
- Db.MarkClearedSetsMarker: proves the marker `find` reads is k. It does not prove that the room has exactly one clears row, because a clears table built by other means may hold more than one such row.
- Values.ParseInt: reads ASCII decimal digits only. Python's `int()` also accepts the decimal digits of other scripts (`int('٣') == 3`), so such a `since` parameter is read as -1 by the model and as its value by the server. Whitespace around the number follows `str.isspace`.
- Values.Repr: escapes the characters `str.isprintable` rejects only within Latin-1 (`\xhh`); the `\uXXXX` and `\UXXXXXXXX` escapes Python writes for non-printable characters beyond U+00FF (such as U+2028) are not modelled, so a bot name holding one gives a different notice text.
- LegacyDb.StoreMessage: a bool is stored as the Bool it was. SQLite stores pypika's `true`/`false` as 1 and 0, so db.py reads such a value back as an int. The `when` it stamps is taken to be a str, as db.py's `strftime` text always is.
- Db.FindAll: a list or dict filter value raises OperationalError in `find` and `find_all`, whose SQL text holds it too; the model matches it as a value instead. Every filter the core passes is a str, an int, None or a bot id read back from the store.
- EventProps.NecsusPinIsLost: covers a bot whose name is a literal, as every row read back from SQLite is: with a list or dict name and no author in the reply, the reply is not stored (`EventProps.TriggerBotUnstorable`).
- EventProps.LegacyPinRoutes: covers only a str or int state, and a bot whose name and id are literals, as every row read back from SQLite is. A list or dict state is not stored, which `EventProps.LegacyListStateNotStored` covers; a bool state is read back as an int (see `LegacyDb.StoreMessage`).
- The `print('Executing:', ...)` logging of db.py's queries: output only, with no effect on the tables.
- Client JavaScript and example_bots/server.py: UI and a test fixture.
