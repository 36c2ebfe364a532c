/** The older store of db.py. Its DBList is the one of necsus/db.py except that
    `update_or_add` and `remove` hand back other values; its Messages table has other columns,
    keeps a bot's reply state undecoded under `reply_to`, and pages with `new` instead of
    `since`. Its tables are `Db.Table`s over these columns. */
module LegacyDb {
  import opened Values
  import Db

  const MessageColumns: set<string> := {"id", "room", "author", "text", "when", "image", "reply_to", "state"}

  /** `DBList.update_or_add(**kwargs)` of db.py: the same INSERT-else-UPDATE, answering with
      the keyword arguments themselves unless the INSERT raised OperationalError. */
  function UpsertRow(columns: set<string>, t: Db.TableState, kwargs: Row): (c: (Db.TableState, Result<Value>))
    requires Db.WellFormed(columns, t) && kwargs.Keys <= columns
    ensures Db.WellFormed(columns, c.0)
    ensures c.0 == Db.UpsertRow(columns, t, kwargs).0
    ensures c.1 == if Db.Writable(kwargs) then Ok(Dict(kwargs)) else Raised(OperationalError)
  {
    (Db.UpsertRow(columns, t, kwargs).0, if Db.UpsertRow(columns, t, kwargs).1.Raised? then Raised(OperationalError) else Ok(Dict(kwargs)))
  }

  /** `DBList.remove(id)` of db.py: the same DELETE, answering None. */
  function RemoveRow(t: Db.TableState, id: Value): (c: (Db.TableState, Value))
    ensures c.0 == Db.RemoveRow(t, id).0 && c.1 == PyNone
  {
    (Db.RemoveRow(t, id).0, PyNone)
  }

  method UpdateOrAdd(t: Db.Table, kwargs: Row) returns (r: Result<Value>)
    requires t.Valid() && kwargs.Keys <= t.columns
    modifies t
    ensures t.Valid()
    ensures (t.State(), r) == UpsertRow(t.columns, old(t.State()), kwargs)
  {
    var c := UpsertRow(t.columns, t.State(), kwargs);
    t.rows, t.seqNo, r := c.0.rows, c.0.seqNo, c.1;
  }

  method Remove(t: Db.Table, id: Value) returns (r: Value)
    requires t.Valid()
    modifies t
    ensures t.Valid()
    ensures (t.State(), r) == RemoveRow(old(t.State()), id)
  {
    var c := RemoveRow(t.State(), id);
    Db.KeptRowsWellFormed(t.columns, t.State(), c.0);
    t.rows, t.seqNo, r := c.0.rows, c.0.seqNo, c.1;
  }

  // ---------------------------------------------------------------------------------
  // Messages.new: paging by the text of an id.

  /** `str(message['id'])`. */
  function IdText(r: Row): string {
    PyStr(Get(r, "id", PyNone))
  }

  /** The rows after the first one whose id reads `s`; none when no id reads `s`. */
  function SkipThrough(msgs: seq<Row>, s: string): (r: seq<Row>)
    ensures (forall j :: 0 <= j < |msgs| ==> IdText(msgs[j]) != s) ==> r == []
    ensures forall i :: 0 <= i < |msgs| && IdText(msgs[i]) == s && (forall j :: 0 <= j < i ==> IdText(msgs[j]) != s)
                        ==> r == msgs[i + 1..]
  {
    if msgs == [] then []
    else if IdText(msgs[0]) == s then msgs[1..]
    else
      var rest := SkipThrough(msgs[1..], s);
      assert forall i :: 0 < i < |msgs| && IdText(msgs[i]) == s && (forall j :: 0 <= j < i ==> IdText(msgs[j]) != s)
                         ==> rest == msgs[i + 1..] by {
        forall i | 0 < i < |msgs| && IdText(msgs[i]) == s && (forall j :: 0 <= j < i ==> IdText(msgs[j]) != s)
          ensures rest == msgs[i + 1..]
        {
          assert msgs[1..][i - 1] == msgs[i];
          assert forall j :: 0 <= j < i - 1 ==> msgs[1..][j] == msgs[j + 1];
          assert msgs[1..][i..] == msgs[i + 1..];
        }
      }
      rest
  }

  /** What `new(since_id)` yields from `msgs`: all of them for None, otherwise those after
      the first whose id has the same text as `since_id`. */
  function AfterCursor(msgs: seq<Row>, since: Value): seq<Row> {
    if since == PyNone then msgs else SkipThrough(msgs, PyStr(since))
  }

  /** What the generator's loop yields from `msgs` once its flag stands at `after`. */
  function Yielded(msgs: seq<Row>, after: bool, s: string): seq<Row> {
    if msgs == [] then []
    else (if after then [msgs[0]] else []) + Yielded(msgs[1..], after || IdText(msgs[0]) == s, s)
  }

  lemma {:induction false} YieldedAfter(msgs: seq<Row>, s: string)
    ensures Yielded(msgs, true, s) == msgs
  {
    if msgs != [] { YieldedAfter(msgs[1..], s); }
  }

  lemma {:induction false} YieldedBefore(msgs: seq<Row>, s: string)
    ensures Yielded(msgs, false, s) == SkipThrough(msgs, s)
  {
    if msgs != [] {
      if IdText(msgs[0]) == s {
        YieldedAfter(msgs[1..], s);
      } else {
        YieldedBefore(msgs[1..], s);
      }
    }
  }

  /** One turn of the loop: the row at `i` is yielded when the flag is up, and raises it
      when its id reads `s`. */
  lemma YieldedStep(out: seq<Row>, msgs: seq<Row>, i: nat, after: bool, s: string)
    requires i < |msgs|
    ensures (out + if after then [msgs[i]] else []) + Yielded(msgs[i + 1..], after || IdText(msgs[i]) == s, s)
         == out + Yielded(msgs[i..], after, s)
  {
    assert msgs[i..][1..] == msgs[i + 1..];
  }

  /** `Messages.new(since_id, **filter)` of db.py, yields collected into a sequence. */
  method New(t: Db.Table, since: Value, filter: Row) returns (out: seq<Row>)
    ensures out == AfterCursor(Db.FindAll(t.rows, filter), since)
  {
    var messages := Db.FindAll(t.rows, filter);
    var s := PyStr(since);
    var after := since == PyNone;
    out := [];
    var i := 0;
    while i < |messages|
      invariant 0 <= i <= |messages|
      invariant out + Yielded(messages[i..], after, s) == Yielded(messages, since == PyNone, s)
    {
      YieldedStep(out, messages, i, after, s);
      if after {
        out := out + [messages[i]];
      }
      if IdText(messages[i]) == s {
        after := true;
      }
      i := i + 1;
    }
    assert messages[i..] == [];
    if since == PyNone { YieldedAfter(messages, s); } else { YieldedBefore(messages, s); }
  }

  /** When the cursor is the id of a stored row of the filtered sequence, `new` yields what
      necsus's `since` query yields: the later rows, the ones with a greater id. */
  lemma AfterCursorIsSince(msgs: seq<Row>, k: int, i: nat)
    requires Db.IdsAscending(msgs) && i < |msgs|
    requires forall x: Row :: x in msgs ==> "id" in x && x["id"].Int?
    requires Db.IdOf(msgs[i]) == k
    ensures AfterCursor(msgs, Str(IntToString(k))) == msgs[i + 1..]
    ensures forall x :: x in AfterCursor(msgs, Str(IntToString(k))) <==> x in msgs && Db.IdOf(x) > k
  {
    CursorFound(msgs, k, i);
    LaterRows(msgs, i);
  }

  /** The cursor's text is the id of row `i` and of no row before it. */
  lemma CursorFound(msgs: seq<Row>, k: int, i: nat)
    requires Db.IdsAscending(msgs) && i < |msgs|
    requires forall x: Row :: x in msgs ==> "id" in x && x["id"].Int?
    requires Db.IdOf(msgs[i]) == k
    ensures AfterCursor(msgs, Str(IntToString(k))) == msgs[i + 1..]
  {
    var s := IntToString(k);
    assert IdText(msgs[i]) == s by { assert msgs[i] in msgs; }
    forall j | 0 <= j < i ensures IdText(msgs[j]) != s {
      assert msgs[j] in msgs;
      if IdText(msgs[j]) == s { IntToStringInjective(Db.IdOf(msgs[j]), k); }
    }
  }

  /** In ascending order the rows after `i` are those with a greater id. */
  lemma LaterRows(msgs: seq<Row>, i: nat)
    requires Db.IdsAscending(msgs) && i < |msgs|
    ensures forall x :: x in msgs[i + 1..] <==> x in msgs && Db.IdOf(x) > Db.IdOf(msgs[i])
  {
    var k := Db.IdOf(msgs[i]);
    forall x ensures x in msgs[i + 1..] <==> x in msgs && Db.IdOf(x) > k {
      if x in msgs && Db.IdOf(x) > k {
        var j :| 0 <= j < |msgs| && msgs[j] == x;
        assert j > i;
        assert msgs[i + 1..][j - i - 1] == x;
      }
      if x in msgs[i + 1..] {
        var j :| 0 <= j < |msgs[i + 1..]| && msgs[i + 1..][j] == x;
        assert msgs[i + 1 + j] == x;
      }
    }
  }

  /** A cursor that no row's id reads as, such as the id of a deleted message, yields nothing. */
  lemma AfterUnknownCursor(msgs: seq<Row>, since: Value)
    requires since != PyNone && forall x :: x in msgs ==> IdText(x) != PyStr(since)
    ensures AfterCursor(msgs, since) == []
  {
    assert forall j :: 0 <= j < |msgs| ==> msgs[j] in msgs;
  }

  // ---------------------------------------------------------------------------------
  // Messages.add and Messages.room_state.

  /** What `Messages.add` of db.py inserts: the message stamped with `now`, its keys
      outside the allowed columns dropped. */
  function PrepareMessage(message: Row, now: Stamp): (row: Row)
    ensures row.Keys == (message.Keys + {"when"}) * MessageColumns
    ensures row["when"] == now
    ensures forall k :: k in row && k != "when" ==> row[k] == message[k]
  {
    var stamped := message["when" := now];
    map k | k in stamped && k in MessageColumns :: stamped[k]
  }

  /** The prepared row has only columns of the table, and no id unless the message had one. */
  lemma PreparedId(message: Row, now: Stamp)
    ensures PrepareMessage(message, now).Keys <= MessageColumns
    ensures "id" !in message ==> Get(PrepareMessage(message, now), "id", PyNone) == PyNone
  {
    assert "id"[0] == 'i' && "when"[0] == 'w';
  }

  /** Every value `Messages.add` of db.py writes into its INSERT is a literal. The `when` it
      stamps is the `strftime` text, a str, and is not checked here. */
  predicate Renderable(message: Row) {
    forall k :: k in message && k in MessageColumns && k != "when" ==> Literal(message[k])
  }

  /** The prepared row can be written exactly when the message is renderable. */
  lemma PreparedWritable(message: Row, now: Stamp)
    ensures Db.Writable(PrepareMessage(message, now)) <==> Renderable(message)
  {
    var prepared := PrepareMessage(message, now);
    if !Renderable(message) {
      var k :| k in message && k in MessageColumns && k != "when" && !Literal(message[k]);
      assert k in prepared && prepared[k] == message[k];
    }
  }

  /** `Messages.add(**message)` of db.py: insert, and hand back the stamped message with all
      its keys, stored or not. The values are written into the SQL text, so a list or dict
      value makes `execute` raise OperationalError before any row is written. */
  function StoreMessage(t: Db.TableState, message: Row, now: Stamp): (c: (Db.TableState, Result<Value>))
    requires Db.WellFormed(MessageColumns, t)
    ensures Db.WellFormed(MessageColumns, c.0)
    ensures c.1.Ok? ==> c.1.value == Dict(message["when" := now])
    ensures !Renderable(message) ==> c == (t, Raised(OperationalError))
    ensures "id" !in message && Renderable(message) ==>
      c == (Db.TableState(t.rows + [Db.Complete(MessageColumns, PrepareMessage(message, now))["id" := Int(t.seqNo + 1)]], t.seqNo + 1),
            Ok(Dict(message["when" := now])))
  {
    var prepared := PrepareMessage(message, now);
    PreparedId(message, now);
    PreparedWritable(message, now);
    match Db.Insert(MessageColumns, t, prepared)
    case Unwritable => (t, Raised(OperationalError))
    case Duplicate => (t, Raised(IntegrityError))
    case Inserted(t', _) => (t', Ok(Dict(message["when" := now])))
  }

  /** `Messages.room_state(room)` of db.py: None for an empty room or when its last row answers
      nobody, otherwise the last row's `reply_to` and its state as stored. */
  function RoomState(rows: seq<Row>, room: string): (r: Result<Option<Db.Pin>>)
    ensures Db.LastBy(rows, Str(room)).None? ==> r == Ok(None)
    ensures r.Ok? && r.value.Some? ==>
      var last := Db.LastBy(rows, Str(room)).value;
      Db.LastBy(rows, Str(room)).Some? && "reply_to" in last && "state" in last && last["reply_to"] != PyNone
      && r.value.value == Db.Pin(last["reply_to"], last["state"])
    ensures Db.LastBy(rows, Str(room)).Some? ==> var last := Db.LastBy(rows, Str(room)).value;
      ("reply_to" in last && last["reply_to"] == PyNone ==> r == Ok(None))
      && ("reply_to" in last && last["reply_to"] != PyNone && "state" in last
          ==> r == Ok(Some(Db.Pin(last["reply_to"], last["state"]))))
      && ("reply_to" !in last ==> r == Raised(KeyError))
  {
    match Db.LastBy(rows, Str(room))
    case None => Ok(None)
    case Some(last) =>
      if "reply_to" !in last then Raised(KeyError)
      else if last["reply_to"] == PyNone then Ok(None)
      else if "state" !in last then Raised(KeyError)
      else Ok(Some(Db.Pin(last["reply_to"], last["state"])))
  }

  /** A message that replies to a bot pins its room to that bot with the state it carried; any
      other message unpins the room. */
  lemma RoomStateAfterStore(t: Db.TableState, message: Row, now: Stamp, room: string)
    requires Db.WellFormed(MessageColumns, t)
    requires "id" !in message && "room" in message && message["room"] == Str(room) && Renderable(message)
    ensures RoomState(StoreMessage(t, message, now).0.rows, room) ==
        if Get(message, "reply_to", PyNone) == PyNone then Ok(None)
        else Ok(Some(Db.Pin(message["reply_to"], Get(message, "state", PyNone))))
  {
    var row := Db.Complete(MessageColumns, PrepareMessage(message, now))["id" := Int(t.seqNo + 1)];
    assert StoreMessage(t, message, now).0.rows == t.rows + [row];
    StoredFields(t, message, now);
    Db.LastByAppend(t.rows, row, Str(room));
  }

  /** The columns of the stored row that `room_state` and `last` read. */
  lemma StoredFields(t: Db.TableState, message: Row, now: Stamp)
    requires "room" in message
    ensures var row := Db.Complete(MessageColumns, PrepareMessage(message, now))["id" := Int(t.seqNo + 1)];
      row["room"] == message["room"] && row["reply_to"] == Get(message, "reply_to", PyNone)
      && row["state"] == Get(message, "state", PyNone)
  {
    var prepared := PrepareMessage(message, now);
    assert "id"[0] == 'i' && "when"[0] == 'w' && "room"[0] == 'r' && "reply_to"[0] == 'r' && "state"[0] == 's';
    assert "room"[1] == 'o' && "reply_to"[1] == 'e';
    assert "room" in MessageColumns && "reply_to" in MessageColumns && "state" in MessageColumns;
    assert Get(prepared, "room", PyNone) == message["room"];
  }

  method AddMessage(t: Db.Table, message: Row, now: Stamp) returns (r: Result<Value>)
    requires t.Valid() && t.columns == MessageColumns
    modifies t
    ensures t.Valid()
    ensures (t.State(), r) == StoreMessage(old(t.State()), message, now)
  {
    var c := StoreMessage(t.State(), message, now);
    t.rows, t.seqNo, r := c.0.rows, c.0.seqNo, c.1;
  }
}
