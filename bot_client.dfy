/** Calling a bot: `run_bot` of necsus/events.py and its twin `run` of bots.py, which are
    the same code. The HTTP client is an oracle `post` from the url and the JSON envelope to
    what came of the request; the function turns that into the message to store, if any. */
module BotClient {
  import opened Values

  /** The class of the requests.exceptions.Timeout that was raised. */
  datatype TimeoutKind = ConnectTimeout | ReadTimeout | OtherTimeout

  /** What `requests.post(url, json=envelope, timeout=BOT_TIMEOUT)` came to: a timeout, a
      response (with its body parsed as JSON, or None when `reply.json()` would raise), or
      another exception. */
  datatype PostOutcome =
    | TimedOut(kind: TimeoutKind)
    | Answered(status: int, json: Option<Value>)
    | PostFailed

  /** BOT_TIMEOUT = (3.05, 42), as the timeout notice writes each part. */
  const ConnectSeconds: string := "3.05"
  const ReadSeconds: string := "42"

  /** The keys a sanitised reply may have. */
  const SafeKeys: set<string> := {"text", "author", "room", "state", "reply_to", "image", "media"}

  /** `bot.get('name', 'bot')`. */
  function BotName(bot: Row): Value {
    Get(bot, "name", Str("bot"))
  }

  /** The JSON the bot is sent: the room, the user, the text and the params, and the state
      only when there is one. */
  function Envelope(room: string, user: Value, text: string, params: Row, state: Value): (env: Row)
    ensures env.Keys == {"room", "author", "text", "params"} + (if state != PyNone then {"state"} else {})
    ensures env["room"] == Str(room) && env["author"] == user && env["text"] == Str(text) && env["params"] == Dict(params)
    ensures state != PyNone ==> env["state"] == state
  {
    var data := map["room" := Str(room), "author" := user, "text" := Str(text), "params" := Dict(params)];
    if state != PyNone then data["state" := state] else data
  }

  /** The request `run_bot` makes: to the bot's url with the envelope, and none at all when
      the url is missing or falsy. */
  function Request(room: string, bot: Row, text: string, params: Row, user: Value, state: Value): (r: Option<(Value, Row)>)
    ensures r.None? <==> !Truthy(Get(bot, "url", PyNone))
    ensures r.Some? ==> r.value == (bot["url"], Envelope(room, user, text, params, state))
  {
    var url := Get(bot, "url", PyNone);
    if Truthy(url) then Some((url, Envelope(room, user, text, params, state))) else None
  }

  /** A message from necsus to the room that invoked the bot. */
  function Notice(room: string, text: string): (m: Row)
    ensures m.Keys == {"room", "author", "text"}
    ensures m["room"] == Str(room) && m["author"] == Str("necsus") && m["text"] == Str(text)
  {
    map["room" := Str(room), "author" := Str("necsus"), "text" := Str(text)]
  }

  /** How long the timed-out part of the request was allowed, as the notice writes it. */
  function Seconds(kind: TimeoutKind): string {
    match kind
    case ConnectTimeout => ConnectSeconds
    case ReadTimeout => ReadSeconds
    case OtherTimeout => "a few"
  }

  function TimeoutText(name: Value, kind: TimeoutKind): string {
    "Something went wrong. Bot " + Repr(name) + " timed out after " + Seconds(kind) + " second(s)."
  }

  function StatusText(name: Value, status: int): string {
    "Something went wrong. Bot " + Repr(name) + " responded with a " + IntToString(status) + " error"
  }

  /** The names of the whitelisted keys are distinct. */
  lemma SafeKeysDistinct()
    ensures |["text", "author", "room", "state", "reply_to", "image", "media"]| == 7
    ensures "text" != "author" && "text" != "room" && "text" != "state" && "text" != "reply_to"
    ensures "text" != "image" && "text" != "media"
    ensures "author" != "room" && "author" != "state" && "author" != "reply_to" && "author" != "image" && "author" != "media"
    ensures "room" != "state" && "room" != "reply_to" && "room" != "image" && "room" != "media"
    ensures "state" != "reply_to" && "state" != "image" && "state" != "media"
    ensures "reply_to" != "image" && "reply_to" != "media" && "image" != "media"
  {
    assert "text"[0] == 't' && "author"[0] == 'a' && "room"[0] == 'r' && "state"[0] == 's';
    assert "reply_to"[0] == 'r' && "image"[0] == 'i' && "media"[0] == 'm';
    assert "room"[1] == 'o' && "reply_to"[1] == 'e';
  }

  /** The keys necsus reads or assigns itself are not whitelisted. */
  lemma OutsideSafeKeys()
    ensures "id" !in SafeKeys && "from_bot" !in SafeKeys
  {
    assert "id"[0] == 'i' && "id"[1] == 'd' && "from_bot"[0] == 'f';
    assert "text"[0] == 't' && "author"[0] == 'a' && "room"[0] == 'r' && "state"[0] == 's';
    assert "reply_to"[0] == 'r' && "image"[0] == 'i' && "image"[1] == 'm' && "media"[0] == 'm';
  }

  /** `base`, with `key` set to `v` when `keep` holds. */
  function KeepIf(base: Row, key: string, keep: bool, v: Value): (r: Row)
    ensures r.Keys == if keep then base.Keys + {key} else base.Keys
    ensures keep ==> r[key] == v
    ensures forall k :: k in base && k != key ==> r[k] == base[k]
  {
    if keep then base[key := v] else base
  }

  /** The three keys every sanitised reply has. */
  function Core(room: string, bot: Row, m: Row): (c: Row)
    requires "text" in m
    ensures c.Keys == {"text", "author", "room"}
    ensures c["text"] == m["text"]
    ensures c["author"] == (if "author" in m && IsStr(m["author"]) then m["author"] else BotName(bot))
    ensures c["room"] == (if "room" in m && IsStr(m["room"]) then m["room"] else Str(room))
  {
    SafeKeysDistinct();
    map["text" := m["text"],
        "author" := if "author" in m && IsStr(m["author"]) then m["author"] else BotName(bot),
        "room" := if "room" in m && IsStr(m["room"]) then m["room"] else Str(room)]
  }

  predicate HasState(m: Row) { "state" in m && m["state"] != PyNone }
  predicate HasImage(m: Row) { "image" in m && IsStr(m["image"]) }
  predicate HasMedia(m: Row) { "media" in m && IsStr(m["media"]) }

  /** The message `run_bot` builds from a reply dict `m` that has a str `text`. */
  function SafeMessage(room: string, bot: Row, m: Row): (s: Row)
    requires "text" in m
    ensures s.Keys == {"text", "author", "room"} + (if HasState(m) then {"state", "reply_to"} else {})
                      + (if HasImage(m) then {"image"} else {}) + (if HasMedia(m) then {"media"} else {})
  {
    var withState := KeepIf(Core(room, bot, m), "state", HasState(m), Get(m, "state", PyNone));
    var withReply := KeepIf(withState, "reply_to", HasState(m), Get(bot, "id", PyNone));
    var withImage := KeepIf(withReply, "image", HasImage(m), Get(m, "image", PyNone));
    KeepIf(withImage, "media", HasMedia(m), Get(m, "media", PyNone))
  }

  /** The whitelist a 200 reply goes through: nothing unless the body is a dict whose `text` is
      a str; otherwise the message `SafeMessage` builds. */
  function Sanitize(room: string, bot: Row, message: Value): (r: Option<Row>)
    ensures r.None? <==> !(message.Dict? && "text" in message.entries && IsStr(message.entries["text"]))
    ensures r.Some? ==> r.value == SafeMessage(room, bot, message.entries)
  {
    if message.Dict? && "text" in message.entries && IsStr(message.entries["text"]) then
      Some(SafeMessage(room, bot, message.entries))
    else
      None
  }

  // Each key of the built message, one lemma at a time.

  lemma CoreKeys(room: string, bot: Row, m: Row)
    requires "text" in m
    ensures var s := SafeMessage(room, bot, m); s.Keys <= SafeKeys && {"text", "author", "room"} <= s.Keys
  {
  }

  lemma StateKeys(room: string, bot: Row, m: Row)
    requires "text" in m
    ensures var s := SafeMessage(room, bot, m); ("state" in s <==> HasState(m)) && ("reply_to" in s <==> HasState(m))
  {
    SafeKeysDistinct();
  }

  lemma ImageKey(room: string, bot: Row, m: Row)
    requires "text" in m
    ensures "image" in SafeMessage(room, bot, m) <==> HasImage(m)
  {
    SafeKeysDistinct();
  }

  lemma MediaKey(room: string, bot: Row, m: Row)
    requires "text" in m
    ensures "media" in SafeMessage(room, bot, m) <==> HasMedia(m)
  {
    SafeKeysDistinct();
  }

  /** The message as built up, one key at a time. */
  function WithReply(room: string, bot: Row, m: Row): Row
    requires "text" in m
  {
    KeepIf(KeepIf(Core(room, bot, m), "state", HasState(m), Get(m, "state", PyNone)),
           "reply_to", HasState(m), Get(bot, "id", PyNone))
  }

  function WithImage(room: string, bot: Row, m: Row): Row
    requires "text" in m
  {
    KeepIf(WithReply(room, bot, m), "image", HasImage(m), Get(m, "image", PyNone))
  }

  lemma SafeMessageSteps(room: string, bot: Row, m: Row)
    requires "text" in m
    ensures SafeMessage(room, bot, m) == KeepIf(WithImage(room, bot, m), "media", HasMedia(m), Get(m, "media", PyNone))
  {
  }

  lemma CoreValues(room: string, bot: Row, m: Row)
    requires "text" in m
    ensures var s := WithReply(room, bot, m); var c := Core(room, bot, m);
      "text" in s && "author" in s && "room" in s
      && s["text"] == c["text"] && s["author"] == c["author"] && s["room"] == c["room"]
  {
    SafeKeysDistinct();
  }

  lemma StateValues(room: string, bot: Row, m: Row)
    requires "text" in m && HasState(m)
    ensures var s := WithReply(room, bot, m);
      "state" in s && "reply_to" in s && s["state"] == m["state"] && s["reply_to"] == Get(bot, "id", PyNone)
  {
    SafeKeysDistinct();
  }

  /** Adding `image` and `media` leaves the keys before them as they were. */
  lemma LaterKeysKeep(room: string, bot: Row, m: Row, k: string)
    requires "text" in m && k in WithReply(room, bot, m) && k != "image" && k != "media"
    ensures k in SafeMessage(room, bot, m) && SafeMessage(room, bot, m)[k] == WithReply(room, bot, m)[k]
  {
    SafeMessageSteps(room, bot, m);
  }

  lemma MediaValues(room: string, bot: Row, m: Row)
    requires "text" in m
    ensures var s := SafeMessage(room, bot, m);
      (HasImage(m) ==> "image" in s && s["image"] == m["image"])
      && (HasMedia(m) ==> "media" in s && s["media"] == m["media"])
  {
    SafeKeysDistinct();
    SafeMessageSteps(room, bot, m);
  }

  /** A sanitised reply has no key outside the whitelist; it always has `text`, `author` and
      `room`, has `state` and `reply_to` exactly when the reply's state is not None, and has
      `image` and `media` exactly when the reply's are str. */
  lemma SanitizeKeys(room: string, bot: Row, message: Value)
    requires Sanitize(room, bot, message).Some?
    ensures var m := message.entries; var s := Sanitize(room, bot, message).value;
      s.Keys <= SafeKeys
      && {"text", "author", "room"} <= s.Keys
      && ("state" in s <==> "state" in m && m["state"] != PyNone)
      && ("reply_to" in s <==> "state" in s)
      && ("image" in s <==> "image" in m && IsStr(m["image"]))
      && ("media" in s <==> "media" in m && IsStr(m["media"]))
  {
    var m := message.entries;
    CoreKeys(room, bot, m);
    StateKeys(room, bot, m);
    ImageKey(room, bot, m);
    MediaKey(room, bot, m);
  }

  /** What each key of a sanitised reply holds: the reply's text; its author if a str, else
      the bot's name; its room if a str, else the invoking room; its state, with the bot's id
      as `reply_to`; its image and media. */
  lemma SanitizeValues(room: string, bot: Row, message: Value)
    requires Sanitize(room, bot, message).Some?
    ensures var m := message.entries; var s := Sanitize(room, bot, message).value;
      {"text", "author", "room"} <= s.Keys
      && s["text"] == m["text"]
      && s["author"] == (if "author" in m && IsStr(m["author"]) then m["author"] else BotName(bot))
      && s["room"] == (if "room" in m && IsStr(m["room"]) then m["room"] else Str(room))
      && (HasState(m) ==> "state" in s && "reply_to" in s && s["state"] == m["state"] && s["reply_to"] == Get(bot, "id", PyNone))
      && (HasImage(m) ==> "image" in s && s["image"] == m["image"])
      && (HasMedia(m) ==> "media" in s && s["media"] == m["media"])
  {
    var m := message.entries;
    CoreValues(room, bot, m);
    LaterKeysKeep(room, bot, m, "text");
    LaterKeysKeep(room, bot, m, "author");
    LaterKeysKeep(room, bot, m, "room");
    if HasState(m) {
      StateValues(room, bot, m);
      LaterKeysKeep(room, bot, m, "state");
      LaterKeysKeep(room, bot, m, "reply_to");
    }
    MediaValues(room, bot, m);
  }

  /** What `run_bot` makes of the outcome of its request. A body that is not JSON and a
      failure other than a timeout escape as exceptions. */
  function Respond(room: string, bot: Row, outcome: PostOutcome): (r: Result<Option<Row>>)
    ensures r.Raised? <==> outcome.PostFailed? || (outcome.Answered? && outcome.status == 200 && outcome.json.None?)
  {
    match outcome
    case PostFailed => Raised(RequestError)
    case TimedOut(kind) => Ok(Some(Notice(room, TimeoutText(BotName(bot), kind))))
    case Answered(status, json) =>
      if status != 200 then Ok(Some(Notice(room, StatusText(BotName(bot), status))))
      else match json
        case None => Raised(JsonDecodeError)
        case Some(body) => Ok(Sanitize(room, bot, body))
  }

  /** `run_bot(room, bot, text, params, user, state)` with `post` standing for the HTTP call. */
  function RunBot(room: string, bot: Row, text: string, params: Row, user: Value, state: Value,
                  post: (Value, Row) -> PostOutcome): (r: Result<Option<Row>>)
    ensures Request(room, bot, text, params, user, state).None? ==> r == Ok(None)
    ensures Request(room, bot, text, params, user, state).Some? ==>
      r == Respond(room, bot, post(bot["url"], Envelope(room, user, text, params, state)))
  {
    match Request(room, bot, text, params, user, state)
    case None => Ok(None)
    case Some((url, env)) => Respond(room, bot, post(url, env))
  }

  // ---------------------------------------------------------------------------------
  // Properties.

  /** Without a url the bot is not called, whatever the network would have done. */
  lemma NoUrlNoRequest(room: string, bot: Row, text: string, params: Row, user: Value, state: Value,
                       post1: (Value, Row) -> PostOutcome, post2: (Value, Row) -> PostOutcome)
    requires !Truthy(Get(bot, "url", PyNone))
    ensures RunBot(room, bot, text, params, user, state, post1) == Ok(None)
    ensures RunBot(room, bot, text, params, user, state, post1) == RunBot(room, bot, text, params, user, state, post2)
  {
  }

  lemma TimeoutTextNames(name: Value, kind: TimeoutKind)
    ensures Contains(TimeoutText(name, kind), Repr(name))
    ensures Contains(TimeoutText(name, kind), Seconds(kind) + " second(s)")
  {
    var n := Repr(name);
    var text := TimeoutText(name, kind);
    assert text == "Something went wrong. Bot " + n + (" timed out after " + Seconds(kind) + " second(s).");
    ContainsMiddle("Something went wrong. Bot ", n, " timed out after " + Seconds(kind) + " second(s).");
    assert text == ("Something went wrong. Bot " + n + " timed out after ") + (Seconds(kind) + " second(s)") + ".";
    ContainsMiddle("Something went wrong. Bot " + n + " timed out after ", Seconds(kind) + " second(s)", ".");
  }

  /** A timeout becomes a necsus notice to the invoking room that names the bot and how long
      it waited: 3.05 seconds to connect, 42 to read, "a few" otherwise. */
  lemma TimeoutNotice(room: string, bot: Row, kind: TimeoutKind)
    ensures var r := Respond(room, bot, TimedOut(kind));
      r.Ok? && r.value.Some? && r.value.value.Keys == {"room", "author", "text"}
      && r.value.value["author"] == Str("necsus") && r.value.value["room"] == Str(room)
      && Contains(r.value.value["text"].s, Repr(BotName(bot)))
      && Contains(r.value.value["text"].s, Seconds(kind) + " second(s)")
  {
    TimeoutTextNames(BotName(bot), kind);
  }

  /** A status other than 200 becomes a necsus notice that names the bot and the status. */
  lemma StatusNotice(room: string, bot: Row, status: int, json: Option<Value>)
    requires status != 200
    ensures var r := Respond(room, bot, Answered(status, json));
      r.Ok? && r.value.Some? && r.value.value.Keys == {"room", "author", "text"}
      && r.value.value["author"] == Str("necsus") && r.value.value["room"] == Str(room)
      && Contains(r.value.value["text"].s, Repr(BotName(bot)))
      && Contains(r.value.value["text"].s, IntToString(status))
  {
    var name := Repr(BotName(bot));
    var code := IntToString(status);
    var text := StatusText(BotName(bot), status);
    assert text == "Something went wrong. Bot " + name + (" responded with a " + code + " error");
    ContainsMiddle("Something went wrong. Bot ", name, " responded with a " + code + " error");
    assert text == ("Something went wrong. Bot " + name + " responded with a ") + code + " error";
    ContainsMiddle("Something went wrong. Bot " + name + " responded with a ", code, " error");
  }

  /** Whatever the bot answers, a message that reaches the room has a str text, a str-or-name
      author and a room, and holds no key outside the whitelist; every other value in it is
      copied from the reply. */
  lemma SanitizedShape(room: string, bot: Row, outcome: PostOutcome)
    requires outcome.Answered? && outcome.status == 200 && outcome.json.Some?
    ensures var r := Respond(room, bot, outcome);
      r.Ok? && (r.value.Some? ==>
        var s := r.value.value; var m := outcome.json.value.entries;
        s.Keys <= SafeKeys && IsStr(s["text"])
        && forall k :: k in s && k !in {"author", "room", "reply_to"} ==> k in m && s[k] == m[k])
  {
    var body := outcome.json.value;
    if Sanitize(room, bot, body).Some? {
      SanitizeKeys(room, bot, body);
      SanitizeValues(room, bot, body);
      SanitizedCopies(room, bot, body);
    }
  }

  /** The keys of a sanitised reply other than `author`, `room` and `reply_to` are copied. */
  lemma SanitizedCopies(room: string, bot: Row, message: Value)
    requires Sanitize(room, bot, message).Some?
    ensures var s := Sanitize(room, bot, message).value; var m := message.entries;
      forall k :: k in s && k !in {"author", "room", "reply_to"} ==> k in m && s[k] == m[k]
  {
    var s := Sanitize(room, bot, message).value;
    var m := message.entries;
    SanitizeKeys(room, bot, message);
    SanitizeValues(room, bot, message);
    forall k | k in s && k !in {"author", "room", "reply_to"}
      ensures k in m && s[k] == m[k]
    {
      assert k in SafeKeys;
      assert k == "text" || k == "state" || k == "image" || k == "media";
    }
  }

  /** A 200 reply whose body is not a dict with a str text yields no message. */
  lemma RejectedReply(room: string, bot: Row, body: Value)
    requires !(body.Dict? && "text" in body.entries && IsStr(body.entries["text"]))
    ensures Respond(room, bot, Answered(200, Some(body))) == Ok(None)
  {
  }
}
