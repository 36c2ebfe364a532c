/** The SQLite store of necsus/db.py, restated on in-memory tables. A table is a sequence of
    rows kept in ascending `id` order (the order SQLite scans a rowid table in) and the
    AUTOINCREMENT high-water mark; every row carries a value, possibly None, for each column
    of the table. Queries are functions of a table's state; each change is a function from the
    prior state to the new one, applied by a method of `Table`. */
module Db {
  import opened Values

  datatype TableState = TableState(rows: seq<Row>, seqNo: int)

  /** The integer primary key of a stored row. */
  function IdOf(r: Row): int {
    if "id" in r && r["id"].Int? then r["id"].i else 0
  }

  predicate IdsAscending(rows: seq<Row>) {
    forall i, j :: 0 <= i < j < |rows| ==> IdOf(rows[i]) < IdOf(rows[j])
  }

  /** Every row has exactly the table's columns and an integer id no larger than the
      high-water mark, and the rows are in strictly ascending id order. */
  predicate WellFormed(columns: set<string>, t: TableState) {
    "id" in columns
    && (forall r :: r in t.rows ==> r.Keys == columns && r["id"].Int? && IdOf(r) <= t.seqNo)
    && IdsAscending(t.rows)
  }

  /** SQL's `column = value`, which never holds when either side is NULL. */
  predicate SqlEq(cell: Value, v: Value) {
    cell != PyNone && v != PyNone && cell == v
  }

  /** The conjunction of the keyword equalities `find`, `find_all` and `delete` build. */
  predicate Matches(r: Row, filter: Row) {
    forall k :: k in filter ==> k in r && SqlEq(r[k], filter[k])
  }

  predicate InRoom(r: Row, room: Value) {
    "room" in r && SqlEq(r["room"], room)
  }

  lemma MatchesRoom(r: Row, room: Value)
    ensures Matches(r, map["room" := room]) <==> InRoom(r, room)
  {
    assert "room" in map["room" := room];
  }

  /** The rows satisfying `p`, in stored order. */
  function Select(rows: seq<Row>, p: Row -> bool): (r: seq<Row>)
    ensures forall x :: x in r <==> x in rows && p(x)
    ensures |r| <= |rows|
  {
    if rows == [] then []
    else
      assert forall x :: x in rows <==> x == rows[0] || x in rows[1..];
      if p(rows[0]) then [rows[0]] + Select(rows[1..], p) else Select(rows[1..], p)
  }

  lemma {:induction false} SelectAscending(rows: seq<Row>, p: Row -> bool)
    ensures IdsAscending(rows) ==> IdsAscending(Select(rows, p))
    decreases |rows|
  {
    if rows != [] && IdsAscending(rows) {
      var rest := Select(rows[1..], p);
      assert IdsAscending(rows[1..]);
      SelectAscending(rows[1..], p);
      if p(rows[0]) {
        var r := [rows[0]] + rest;
        forall i, j | 0 <= i < j < |r| ensures IdOf(r[i]) < IdOf(r[j]) {
          if i == 0 {
            assert r[j] == rest[j - 1] && rest[j - 1] in rows[1..];
            var k :| 0 <= k < |rows[1..]| && rows[1..][k] == r[j];
            assert rows[k + 1] == r[j];
          } else {
            assert r[i] == rest[i - 1] && r[j] == rest[j - 1];
          }
        }
      }
    }
  }

  /** The first selected row is the first row of `rows` satisfying `p`. */
  lemma {:induction false} SelectFirst(rows: seq<Row>, p: Row -> bool)
    requires Select(rows, p) != []
    ensures exists i :: 0 <= i < |rows| && rows[i] == Select(rows, p)[0] && p(rows[i])
                        && forall j :: 0 <= j < i ==> !p(rows[j])
    decreases |rows|
  {
    if !p(rows[0]) {
      SelectFirst(rows[1..], p);
      var i :| 0 <= i < |rows[1..]| && rows[1..][i] == Select(rows[1..], p)[0] && p(rows[1..][i])
               && forall j :: 0 <= j < i ==> !p(rows[1..][j]);
      assert rows[i + 1] == rows[1..][i];
      forall j | 0 <= j < i + 1 ensures !p(rows[j]) {
        if j > 0 { assert rows[j] == rows[1..][j - 1]; }
      }
    }
  }

  /** Selecting drops a row exactly when some row fails `p`. */
  lemma {:induction false} SelectDrops(rows: seq<Row>, p: Row -> bool)
    ensures |Select(rows, p)| < |rows| <==> exists x :: x in rows && !p(x)
    decreases |rows|
  {
    if rows != [] {
      SelectDrops(rows[1..], p);
      assert forall x :: x in rows <==> x == rows[0] || x in rows[1..];
    }
  }

  lemma {:induction false} SelectAppend(rows: seq<Row>, x: Row, p: Row -> bool)
    ensures Select(rows + [x], p) == Select(rows, p) + (if p(x) then [x] else [])
    decreases |rows|
  {
    if rows == [] {
      assert [] + [x] == [x];
    } else {
      assert (rows + [x])[1..] == rows[1..] + [x];
      SelectAppend(rows[1..], x, p);
    }
  }

  // ---------------------------------------------------------------------------------
  // Queries.

  /** `find_all(**filter)`: every row matching all the keyword equalities, in stored order. */
  function FindAll(rows: seq<Row>, filter: Row): (r: seq<Row>)
    ensures forall x :: x in r <==> x in rows && Matches(x, filter)
    ensures IdsAscending(rows) ==> IdsAscending(r)
  {
    SelectAscending(rows, x => Matches(x, filter));
    Select(rows, x => Matches(x, filter))
  }

  /** No row matches: nothing is found. */
  lemma {:induction false} FindAllNone(rows: seq<Row>, filter: Row)
    requires forall x :: x in rows ==> !Matches(x, filter)
    ensures FindAll(rows, filter) == []
    decreases |rows|
  {
    if rows != [] {
      assert rows[0] in rows;
      assert forall x :: x in rows[1..] ==> x in rows;
      FindAllNone(rows[1..], filter);
    }
  }

  /** `find(**filter)`: the first matching row, or None when no row matches. */
  function Find(rows: seq<Row>, filter: Row): (r: Option<Row>)
    ensures r.None? <==> forall x :: x in rows ==> !Matches(x, filter)
    ensures r.Some? ==> exists i :: 0 <= i < |rows| && rows[i] == r.value && Matches(rows[i], filter)
                                     && forall j :: 0 <= j < i ==> !Matches(rows[j], filter)
  {
    var all := Select(rows, x => Matches(x, filter));
    if all == [] then None
    else
      assert all[0] in all;
      SelectFirst(rows, x => Matches(x, filter));
      Some(all[0])
  }

  /** `Messages.since(room, k)`: the room's rows with id greater than `k`, ascending. */
  function Since(rows: seq<Row>, room: string, k: int): (r: seq<Row>)
    ensures forall x :: x in r <==> x in rows && InRoom(x, Str(room)) && IdOf(x) > k
    ensures IdsAscending(rows) ==> IdsAscending(r)
  {
    SelectAscending(rows, x => InRoom(x, Str(room)) && IdOf(x) > k);
    Select(rows, x => InRoom(x, Str(room)) && IdOf(x) > k)
  }

  /** A room without rows has nothing after any cursor. */
  lemma {:induction false} SinceNone(rows: seq<Row>, room: string, k: int)
    requires forall x :: x in rows ==> !InRoom(x, Str(room))
    ensures Since(rows, room, k) == []
    decreases |rows|
  {
    if rows != [] {
      assert rows[0] in rows;
      assert forall x :: x in rows[1..] ==> x in rows;
      SinceNone(rows[1..], room, k);
    }
  }

  /** `Messages.last(room=v)`: the room's row with the largest id, or None. */
  function LastBy(rows: seq<Row>, room: Value): (r: Option<Row>)
    ensures r.None? <==> forall x :: x in rows ==> !InRoom(x, room)
    ensures r.Some? ==> r.value in rows && InRoom(r.value, room)
    ensures r.Some? && IdsAscending(rows) ==>
      forall x :: x in rows && InRoom(x, room) ==> IdOf(x) <= IdOf(r.value)
  {
    var inRoom := FindAll(rows, map["room" := room]);
    forall x ensures Matches(x, map["room" := room]) <==> InRoom(x, room) {
      MatchesRoom(x, room);
    }
    if inRoom == [] then None
    else
      var last := inRoom[|inRoom| - 1];
      assert last in inRoom;
      assert IdsAscending(rows) ==> forall x :: x in rows && InRoom(x, room) ==> IdOf(x) <= IdOf(last) by {
        if IdsAscending(rows) {
          forall x | x in rows && InRoom(x, room) ensures IdOf(x) <= IdOf(last) {
            assert x in inRoom;
            var j :| 0 <= j < |inRoom| && inRoom[j] == x;
          }
        }
      }
      Some(last)
  }

  function Last(rows: seq<Row>, room: string): (r: Option<Row>)
    ensures r == LastBy(rows, Str(room))
  {
    LastBy(rows, Str(room))
  }

  /** The first match of `rows` is its first row if that matches, else the first match of
      the remaining rows. */
  lemma FindCons(rows: seq<Row>, filter: Row)
    requires rows != []
    ensures Find(rows, filter) == if Matches(rows[0], filter) then Some(rows[0]) else Find(rows[1..], filter)
  {
  }

  lemma {:induction false} FindAppend(rows: seq<Row>, x: Row, filter: Row)
    ensures Find(rows + [x], filter) ==
      if Find(rows, filter).Some? then Find(rows, filter) else if Matches(x, filter) then Some(x) else None
  {
    SelectAppend(rows, x, y => Matches(y, filter));
  }

  /** A row appended to a room is the room's last row. */
  lemma LastByAppend(rows: seq<Row>, x: Row, room: Value)
    requires InRoom(x, room)
    ensures LastBy(rows + [x], room) == Some(x)
  {
    SelectAppend(rows, x, y => Matches(y, map["room" := room]));
    MatchesRoom(x, room);
  }

  // ---------------------------------------------------------------------------------
  // Inserting a row.

  /** The row SQLite stores for an INSERT naming only some columns: NULL for the rest. */
  function Complete(columns: set<string>, kwargs: Row): (r: Row)
    ensures r.Keys == columns
    ensures forall k :: k in columns ==> r[k] == Get(kwargs, k, PyNone)
  {
    map c | c in columns :: Get(kwargs, c, PyNone)
  }

  predicate IdTaken(rows: seq<Row>, id: int) {
    exists x :: x in rows && IdOf(x) == id
  }

  /** A row below every id of an ascending sequence can go in front of it. */
  lemma AscendingCons(x: Row, s: seq<Row>)
    requires IdsAscending(s) && forall y :: y in s ==> IdOf(x) < IdOf(y)
    ensures IdsAscending([x] + s)
  {
    var r := [x] + s;
    forall i, j | 0 <= i < j < |r| ensures IdOf(r[i]) < IdOf(r[j]) {
      assert r[j] == s[j - 1];
      if i > 0 { assert r[i] == s[i - 1]; }
    }
  }

  /** Every later row of an ascending sequence has a larger id than the first. */
  lemma AscendingFirst(rows: seq<Row>)
    requires IdsAscending(rows) && rows != []
    ensures forall y :: y in rows[1..] ==> IdOf(rows[0]) < IdOf(y)
    ensures IdsAscending(rows[1..])
  {
    forall y | y in rows[1..] ensures IdOf(rows[0]) < IdOf(y) {
      var k :| 0 <= k < |rows[1..]| && rows[1..][k] == y;
      assert rows[k + 1] == y;
    }
  }

  /** `rows` with `row` put at its place in id order. */
  function InsertById(rows: seq<Row>, row: Row): (r: seq<Row>)
    ensures |r| == |rows| + 1
    ensures forall x :: x in r <==> x in rows || x == row
    ensures IdsAscending(rows) && !IdTaken(rows, IdOf(row)) ==> IdsAscending(r)
  {
    if rows == [] || IdOf(row) < IdOf(rows[0]) then
      var r := [row] + rows;
      assert IdsAscending(rows) && !IdTaken(rows, IdOf(row)) ==> IdsAscending(r) by {
        if IdsAscending(rows) && rows != [] {
          AscendingFirst(rows);
          assert forall y :: y in rows ==> y == rows[0] || y in rows[1..];
          AscendingCons(row, rows);
        } else if rows == [] {
          AscendingCons(row, rows);
        }
      }
      r
    else
      var rest := InsertById(rows[1..], row);
      var r := [rows[0]] + rest;
      assert forall x :: x in rows[1..] ==> x in rows;
      assert IdsAscending(rows) && !IdTaken(rows, IdOf(row)) ==> IdsAscending(r) by {
        if IdsAscending(rows) && !IdTaken(rows, IdOf(row)) {
          AscendingFirst(rows);
          assert !IdTaken(rows[1..], IdOf(row));
          assert rows[0] in rows;
          AscendingCons(rows[0], rest);
        }
      }
      r
  }

  /** Both stores write the values of a query into its SQL text: every one must be a literal. */
  predicate Writable(kwargs: Row) {
    forall k :: k in kwargs ==> Literal(kwargs[k])
  }

  datatype Insertion = Inserted(table: TableState, id: int) | Duplicate | Unwritable

  /** An INSERT of `kwargs`: a list or dict value makes SQL text SQLite cannot compile; with
      no id (or a None id) the row gets the next AUTOINCREMENT id and goes last; an unused
      integer id is kept and raises the high-water mark if larger; an id in use, or one that
      is not an integer, violates the primary key. */
  function Insert(columns: set<string>, t: TableState, kwargs: Row): (r: Insertion)
    requires WellFormed(columns, t) && kwargs.Keys <= columns
    ensures r.Unwritable? <==> !Writable(kwargs)
    ensures r.Duplicate? <==> Writable(kwargs) && Get(kwargs, "id", PyNone) != PyNone
                              && !(Get(kwargs, "id", PyNone).Int? && !IdTaken(t.rows, Get(kwargs, "id", PyNone).i))
    ensures r.Inserted? ==> WellFormed(columns, r.table) && r.table.seqNo >= t.seqNo
    ensures r.Inserted? ==> var row := Complete(columns, kwargs)["id" := Int(r.id)];
      |r.table.rows| == |t.rows| + 1 && !IdTaken(t.rows, r.id)
      && (forall x :: x in r.table.rows <==> x in t.rows || x == row)
    ensures r.Inserted? && Get(kwargs, "id", PyNone) == PyNone ==>
      r.id == t.seqNo + 1 && r.table == TableState(t.rows + [Complete(columns, kwargs)["id" := Int(r.id)]], r.id)
    ensures r.Inserted? && Get(kwargs, "id", PyNone) != PyNone ==> Get(kwargs, "id", PyNone) == Int(r.id)
  {
    var given := Get(kwargs, "id", PyNone);
    if !Writable(kwargs) then Unwritable
    else if given == PyNone then
      var id := t.seqNo + 1;
      var row := Complete(columns, kwargs)["id" := Int(id)];
      var rows := t.rows + [row];
      assert IdsAscending(rows) by {
        forall i, j | 0 <= i < j < |rows| ensures IdOf(rows[i]) < IdOf(rows[j]) {
          if j == |rows| - 1 { assert rows[i] in t.rows; }
        }
      }
      Inserted(TableState(rows, id), id)
    else if given.Int? && !IdTaken(t.rows, given.i) then
      var row := Complete(columns, kwargs);
      assert row == row["id" := Int(given.i)];
      Inserted(TableState(InsertById(t.rows, row), if given.i > t.seqNo then given.i else t.seqNo), given.i)
    else
      Duplicate
  }

  // ---------------------------------------------------------------------------------
  // The DBList changes.

  /** `DBList.add(**kwargs)`: insert, and hand back the keyword arguments themselves. */
  function AddRow(columns: set<string>, t: TableState, kwargs: Row): (c: (TableState, Result<Value>))
    requires WellFormed(columns, t) && kwargs.Keys <= columns
    ensures WellFormed(columns, c.0)
    ensures c.1.Ok? ==> c.1.value == Dict(kwargs)
    ensures c.1 == Raised(IntegrityError) <==> Insert(columns, t, kwargs).Duplicate?
    ensures c.1 == Raised(OperationalError) <==> !Writable(kwargs)
    ensures c.1.Raised? ==> c.0 == t
  {
    match Insert(columns, t, kwargs)
    case Inserted(t', _) => (t', Ok(Dict(kwargs)))
    case Duplicate => (t, Raised(IntegrityError))
    case Unwritable => (t, Raised(OperationalError))
  }

  /** `UPDATE ... SET changes WHERE filter`: every matching row takes the new values. */
  function UpdateRows(rows: seq<Row>, filter: Row, changes: Row): (r: seq<Row>)
    ensures |r| == |rows|
    ensures forall i :: 0 <= i < |rows| ==> r[i] == if Matches(rows[i], filter) then rows[i] + changes else rows[i]
  {
    seq(|rows|, i requires 0 <= i < |rows| => if Matches(rows[i], filter) then rows[i] + changes else rows[i])
  }

  lemma UpdateKeepsWellFormed(columns: set<string>, t: TableState, filter: Row, changes: Row)
    requires WellFormed(columns, t) && changes.Keys <= columns
    requires "id" in changes ==> "id" in filter && changes["id"] == filter["id"]
    ensures WellFormed(columns, TableState(UpdateRows(t.rows, filter, changes), t.seqNo))
  {
    var rows := UpdateRows(t.rows, filter, changes);
    forall i | 0 <= i < |rows| ensures rows[i].Keys == columns && rows[i]["id"] == t.rows[i]["id"] {
    }
    forall r | r in rows ensures r.Keys == columns && r["id"].Int? && IdOf(r) <= t.seqNo {
      var i :| 0 <= i < |rows| && rows[i] == r;
      assert t.rows[i] in t.rows;
    }
    forall i, j | 0 <= i < j < |rows| ensures IdOf(rows[i]) < IdOf(rows[j]) {
      assert IdOf(rows[i]) == IdOf(t.rows[i]) && IdOf(rows[j]) == IdOf(t.rows[j]);
    }
  }

  /** `DBList.update_or_add(**kwargs)`: INSERT, and on a primary-key violation UPDATE the row
      with that id instead; either way hand back `find(id=...)` of the id used. The
      OperationalError of SQL text SQLite cannot compile is not caught. */
  function UpsertRow(columns: set<string>, t: TableState, kwargs: Row): (c: (TableState, Result<Option<Row>>))
    requires WellFormed(columns, t) && kwargs.Keys <= columns
    ensures WellFormed(columns, c.0)
    ensures !Writable(kwargs) ==> c == (t, Raised(OperationalError))
    ensures Writable(kwargs) ==> c.1.Ok?
  {
    match Insert(columns, t, kwargs)
    case Unwritable => (t, Raised(OperationalError))
    case Inserted(t', id) => (t', Ok(Find(t'.rows, map["id" := Int(id)])))
    case Duplicate =>
      var key := kwargs["id"];
      var rows := UpdateRows(t.rows, map["id" := key], kwargs);
      UpdateKeepsWellFormed(columns, t, map["id" := key], kwargs);
      (TableState(rows, t.seqNo), Ok(Find(rows, map["id" := key])))
  }

  /** In a well-formed table at most one row has a given id. */
  lemma IdsUnique(columns: set<string>, t: TableState, x: Row, y: Row)
    requires WellFormed(columns, t) && x in t.rows && y in t.rows && IdOf(x) == IdOf(y)
    ensures x == y
  {
    var i :| 0 <= i < |t.rows| && t.rows[i] == x;
    var j :| 0 <= j < |t.rows| && t.rows[j] == y;
    assert i == j;
  }

  /** update_or_add with a fresh id inserts the row and hands back exactly the stored row. */
  lemma UpsertRowInserts(columns: set<string>, t: TableState, kwargs: Row)
    requires WellFormed(columns, t) && kwargs.Keys <= columns
    requires Insert(columns, t, kwargs).Inserted?
    ensures var ins := Insert(columns, t, kwargs);
      UpsertRow(columns, t, kwargs) == (ins.table, Ok(Some(Complete(columns, kwargs)["id" := Int(ins.id)])))
  {
    var ins := Insert(columns, t, kwargs);
    var f := map["id" := Int(ins.id)];
    var row := Complete(columns, kwargs)["id" := Int(ins.id)];
    assert "id" in f;
    assert Matches(row, f);
    var found := Find(ins.table.rows, f);
    assert found.value == row by {
      IdsUnique(columns, ins.table, found.value, row);
    }
  }

  /** update_or_add with an integer id already in use overwrites that row, and only that row,
      with the given values, and hands back the overwritten row; values that cannot be
      written raise and change nothing. */
  lemma UpsertRowUpdates(columns: set<string>, t: TableState, kwargs: Row, prior: Row)
    requires WellFormed(columns, t) && kwargs.Keys <= columns
    requires prior in t.rows && "id" in kwargs && kwargs["id"] == prior["id"]
    ensures Insert(columns, t, kwargs) == if Writable(kwargs) then Duplicate else Unwritable
    ensures UpsertRow(columns, t, kwargs).1 == if Writable(kwargs) then Ok(Some(prior + kwargs)) else Raised(OperationalError)
    ensures UpsertRow(columns, t, kwargs).0.seqNo == t.seqNo
    ensures |UpsertRow(columns, t, kwargs).0.rows| == |t.rows|
    ensures forall i :: 0 <= i < |t.rows| ==>
      UpsertRow(columns, t, kwargs).0.rows[i] == if Writable(kwargs) && t.rows[i] == prior then prior + kwargs else t.rows[i]
  {
    if Writable(kwargs) {
      UpsertDuplicate(columns, t, kwargs, prior);
      UpdateFindsPrior(columns, t, kwargs, prior);
      UpdateById(columns, t, prior, kwargs);
    }
  }

  /** With an id in use update_or_add takes the UPDATE path. */
  lemma UpsertDuplicate(columns: set<string>, t: TableState, kwargs: Row, prior: Row)
    requires WellFormed(columns, t) && kwargs.Keys <= columns && Writable(kwargs)
    requires prior in t.rows && "id" in kwargs && kwargs["id"] == prior["id"]
    ensures Insert(columns, t, kwargs).Duplicate?
    ensures var rows := UpdateRows(t.rows, map["id" := prior["id"]], kwargs);
      UpsertRow(columns, t, kwargs) == (TableState(rows, t.seqNo), Ok(Find(rows, map["id" := prior["id"]])))
  {
    assert IdTaken(t.rows, kwargs["id"].i);
  }

  /** The UPDATE keyed on the id of `prior` finds `prior` with the new values. */
  lemma UpdateFindsPrior(columns: set<string>, t: TableState, kwargs: Row, prior: Row)
    requires WellFormed(columns, t)
    requires prior in t.rows && "id" in kwargs && kwargs["id"] == prior["id"]
    ensures Find(UpdateRows(t.rows, map["id" := prior["id"]], kwargs), map["id" := prior["id"]]) == Some(prior + kwargs)
  {
    var f := map["id" := prior["id"]];
    assert "id" in f;
    assert Matches(prior, f);
    var first := Find(t.rows, f).value;
    assert Matches(first, f) && first in t.rows;
    IdsUnique(columns, t, first, prior);
    FindUpdated(t.rows, f, kwargs, f);
  }

  /** An UPDATE keyed on an id in use touches that row only. */
  lemma UpdateById(columns: set<string>, t: TableState, prior: Row, changes: Row)
    requires WellFormed(columns, t) && prior in t.rows
    ensures var rows := UpdateRows(t.rows, map["id" := prior["id"]], changes);
      forall i :: 0 <= i < |t.rows| ==> rows[i] == if t.rows[i] == prior then prior + changes else t.rows[i]
  {
    var f := map["id" := prior["id"]];
    assert "id" in f;
    var rows := UpdateRows(t.rows, f, changes);
    forall i | 0 <= i < |t.rows| ensures rows[i] == if t.rows[i] == prior then prior + changes else t.rows[i] {
      assert t.rows[i] in t.rows;
      if Matches(t.rows[i], f) {
        IdsUnique(columns, t, t.rows[i], prior);
      }
      if t.rows[i] == prior {
        assert Matches(prior, f);
      }
    }
  }

  /** update_or_add with an id that is neither None nor an integer changes nothing and finds
      nothing, or raises when a value cannot be written. */
  lemma UpsertRowBadId(columns: set<string>, t: TableState, kwargs: Row)
    requires WellFormed(columns, t) && kwargs.Keys <= columns
    requires "id" in kwargs && kwargs["id"] != PyNone && !kwargs["id"].Int?
    ensures UpsertRow(columns, t, kwargs) == (t, if Writable(kwargs) then Ok(None) else Raised(OperationalError))
  {
    var f := map["id" := kwargs["id"]];
    assert "id" in f;
    forall i | 0 <= i < |t.rows| ensures !Matches(t.rows[i], f) {
      assert t.rows[i] in t.rows;
    }
    assert UpdateRows(t.rows, f, kwargs) == t.rows;
  }

  /** `DBList.add_if_new(**kwargs)`: insert only when no row matches every given column. The
      SELECT writes the same values into its text, so one that cannot be written raises
      before anything is looked up. */
  function InsertIfNew(columns: set<string>, t: TableState, kwargs: Row): (c: (TableState, Result<Value>))
    requires WellFormed(columns, t) && kwargs.Keys <= columns
    ensures WellFormed(columns, c.0)
    ensures c.1.Ok? ==> c.1.value == Dict(kwargs)
    ensures !Writable(kwargs) ==> c == (t, Raised(OperationalError))
    ensures Writable(kwargs) && Find(t.rows, kwargs).Some? ==> c == (t, Ok(Dict(kwargs)))
    ensures Find(t.rows, kwargs).None? ==> c == AddRow(columns, t, kwargs)
  {
    if !Writable(kwargs) then (t, Raised(OperationalError))
    else if Find(t.rows, kwargs).Some? then (t, Ok(Dict(kwargs)))
    else AddRow(columns, t, kwargs)
  }

  /** add_if_new is idempotent when no keyword value is None: a second call with the same
      arguments leaves the table as the first call left it and answers the same way. */
  lemma InsertIfNewIdempotent(columns: set<string>, t: TableState, kwargs: Row)
    requires WellFormed(columns, t) && kwargs.Keys <= columns
    requires forall k :: k in kwargs ==> kwargs[k] != PyNone
    ensures var (t1, r1) := InsertIfNew(columns, t, kwargs);
      InsertIfNew(columns, t1, kwargs) == (t1, r1)
  {
    var (t1, r1) := InsertIfNew(columns, t, kwargs);
    if Find(t.rows, kwargs).None? {
      match Insert(columns, t, kwargs)
      case Inserted(t', id) =>
        var row := Complete(columns, kwargs)["id" := Int(id)];
        assert row in t'.rows;
        assert Matches(row, kwargs);
      case Duplicate =>
      case Unwritable =>
    }
  }

  /** `DBList.delete(**filter)`: remove every matching row. */
  function DeleteRows(t: TableState, filter: Row): (t': TableState)
    ensures t'.seqNo == t.seqNo
    ensures forall x :: x in t'.rows <==> x in t.rows && !Matches(x, filter)
    ensures IdsAscending(t.rows) ==> IdsAscending(t'.rows)
  {
    SelectAscending(t.rows, x => !Matches(x, filter));
    TableState(Select(t.rows, x => !Matches(x, filter)), t.seqNo)
  }

  /** `DBList.remove(id)`: delete the row with that id; true iff a row went. */
  function RemoveRow(t: TableState, id: Value): (c: (TableState, bool))
    ensures c.0.seqNo == t.seqNo
    ensures forall x :: x in c.0.rows <==> x in t.rows && !SqlEq(Get(x, "id", PyNone), id)
    ensures IdsAscending(t.rows) ==> IdsAscending(c.0.rows)
    ensures c.1 <==> exists x :: x in t.rows && SqlEq(Get(x, "id", PyNone), id)
  {
    var rows := Select(t.rows, x => !SqlEq(Get(x, "id", PyNone), id));
    SelectAscending(t.rows, x => !SqlEq(Get(x, "id", PyNone), id));
    SelectDrops(t.rows, x => !SqlEq(Get(x, "id", PyNone), id));
    (TableState(rows, t.seqNo), |rows| < |t.rows|)
  }

  lemma KeptRowsWellFormed(columns: set<string>, t: TableState, t': TableState)
    requires WellFormed(columns, t) && t'.seqNo == t.seqNo && IdsAscending(t'.rows)
    requires forall x :: x in t'.rows ==> x in t.rows
    ensures WellFormed(columns, t')
  {
  }

  // ---------------------------------------------------------------------------------
  // Messages.

  const MessageColumns: set<string> :=
    {"id", "room", "author", "kind", "text", "when", "image", "media", "mjs", "css", "from_bot", "state"}

  /** What `Messages.add` inserts for `message`: stamped with `now` as its `when`, a non-None
      `state` replaced by its JSON text, and every key outside the allowed columns dropped. */
  function PrepareMessage(message: Row, now: Stamp): (row: Row)
    ensures row.Keys == (message.Keys + {"when"}) * MessageColumns
    ensures row["when"] == now
    ensures forall k :: k in row && k != "when" && k != "state" ==> row[k] == message[k]
    ensures "state" in row ==> row["state"] == Dumps(message["state"])
  {
    var stamped := message["when" := now];
    var encoded := if Get(stamped, "state", PyNone) != PyNone then stamped["state" := JsonText(stamped["state"])] else stamped;
    map k | k in encoded && k in MessageColumns :: encoded[k]
  }

  /** `json.dumps` as the store applies it to a state: None stays NULL. */
  function Dumps(state: Value): (v: Value)
    ensures v == PyNone <==> state == PyNone
  {
    if state == PyNone then PyNone else JsonText(state)
  }

  /** `json.loads` of a stored state: the document a JSON text encodes. The model does not
      parse text it did not produce. */
  function Loads(v: Value): (r: Result<Value>)
    ensures v.JsonText? ==> r == Ok(v.doc)
  {
    if v.JsonText? then Ok(v.doc) else Raised(JsonDecodeError)
  }

  lemma LoadsDumps(state: Value)
    requires state != PyNone
    ensures Loads(Dumps(state)) == Ok(state)
  {
  }

  /** The row `Messages.add` stores for `message` when it gets the next id of `t`. */
  function StoredMessage(t: TableState, message: Row, now: Stamp): Row {
    Complete(MessageColumns, PrepareMessage(message, now))["id" := Int(t.seqNo + 1)]
  }

  /** Every value `Messages.add` writes into its INSERT is a literal. It writes the `when` it
      stamps and the JSON text of `state`, both str, in place of the message's own. */
  predicate Renderable(message: Row) {
    forall k :: k in message && k in MessageColumns && k != "when" && k != "state" ==> Literal(message[k])
  }

  /** The prepared row can be written exactly when the message is renderable. */
  lemma PreparedWritable(message: Row, now: Stamp)
    ensures Writable(PrepareMessage(message, now)) <==> Renderable(message)
  {
    var prepared := PrepareMessage(message, now);
    if Renderable(message) {
      forall k | k in prepared ensures Literal(prepared[k]) {
        if k == "state" {
          assert prepared["state"] == Dumps(message["state"]);
        }
      }
    } else {
      var k :| k in message && k in MessageColumns && k != "when" && k != "state" && !Literal(message[k]);
      assert k in prepared && prepared[k] == message[k];
    }
  }

  /** `Messages.add(**message)`: insert the prepared row and hand back `last(room=...)` of the
      message's room. A message without a room raises KeyError after the row is stored; a
      list or dict value raises OperationalError and stores nothing. */
  function StoreMessage(t: TableState, message: Row, now: Stamp): (c: (TableState, Result<Value>))
    requires WellFormed(MessageColumns, t)
    ensures WellFormed(MessageColumns, c.0)
    ensures !Renderable(message) ==> c == (t, Raised(OperationalError))
  {
    PreparedWritable(message, now);
    match Insert(MessageColumns, t, PrepareMessage(message, now))
    case Unwritable => (t, Raised(OperationalError))
    case Duplicate => (t, Raised(IntegrityError))
    case Inserted(t', _) =>
      if "room" in message then (t', Ok(OptionValue(LastBy(t'.rows, message["room"]))))
      else (t', Raised(KeyError))
  }

  /** A message without an id, addressed to a room, is appended with the next id, and what
      `add` hands back is exactly the stored row. */
  lemma StoreMessageAppends(t: TableState, message: Row, now: Stamp)
    requires WellFormed(MessageColumns, t)
    requires "id" !in message && "room" in message && message["room"] != PyNone && Renderable(message)
    ensures StoreMessage(t, message, now) ==
      (TableState(t.rows + [StoredMessage(t, message, now)], t.seqNo + 1), Ok(Dict(StoredMessage(t, message, now))))
  {
    var row := StoredMessage(t, message, now);
    StoredMessageFields(t, message, now);
    InsertMessageAppends(t, message, now);
    LastByAppend(t.rows, row, message["room"]);
  }

  /** The columns of the stored row that `room_state` and `last` read. */
  lemma StoredMessageFields(t: TableState, message: Row, now: Stamp)
    requires "id" !in message && "room" in message
    ensures "id" !in PrepareMessage(message, now)
    ensures var row := StoredMessage(t, message, now);
      row["room"] == message["room"] && row["from_bot"] == Get(message, "from_bot", PyNone)
      && row["state"] == Dumps(Get(message, "state", PyNone))
  {
    PreparedFields(message, now);
    assert "id"[0] == 'i' && "room"[0] == 'r' && "from_bot"[0] == 'f' && "state"[0] == 's';
    assert "room" in MessageColumns && "from_bot" in MessageColumns && "state" in MessageColumns;
  }

  lemma PreparedFields(message: Row, now: Stamp)
    requires "id" !in message
    ensures var prepared := PrepareMessage(message, now);
      "id" !in prepared
      && Get(prepared, "room", PyNone) == Get(message, "room", PyNone)
      && Get(prepared, "from_bot", PyNone) == Get(message, "from_bot", PyNone)
      && Get(prepared, "state", PyNone) == Dumps(Get(message, "state", PyNone))
  {
    assert "id"[0] == 'i' && "when"[0] == 'w' && "room"[0] == 'r' && "from_bot"[0] == 'f' && "state"[0] == 's';
    assert "room" in MessageColumns && "from_bot" in MessageColumns && "state" in MessageColumns;
  }

  /** Inserting a message without an id appends its stored row with the next id. */
  lemma InsertMessageAppends(t: TableState, message: Row, now: Stamp)
    requires WellFormed(MessageColumns, t) && "id" !in message && "room" in message && Renderable(message)
    ensures Insert(MessageColumns, t, PrepareMessage(message, now))
      == Inserted(TableState(t.rows + [StoredMessage(t, message, now)], t.seqNo + 1), t.seqNo + 1)
  {
    var prepared := PrepareMessage(message, now);
    PreparedFields(message, now);
    PreparedWritable(message, now);
    assert prepared.Keys <= MessageColumns;
    var ins := Insert(MessageColumns, t, prepared);
    assert Get(prepared, "id", PyNone) == PyNone;
    assert ins.Inserted? && ins.id == t.seqNo + 1;
  }

  datatype Pin = Pin(botId: Value, state: Value)

  /** `Messages.room_state(room)`: None for an empty room or when its last row has no state,
      otherwise the last row's `from_bot` and its decoded state. The last of the room's rows
      in stored order is `LastBy`'s row. */
  function RoomState(rows: seq<Row>, room: string): (r: Result<Option<Pin>>)
    ensures LastBy(rows, Str(room)).None? ==> r == Ok(None)
    ensures r.Ok? && r.value.Some? ==>
      var last := LastBy(rows, Str(room)).value;
      LastBy(rows, Str(room)).Some? && "state" in last && "from_bot" in last && last["state"] != PyNone
      && Loads(last["state"]) == Ok(r.value.value.state) && r.value.value.botId == last["from_bot"]
    ensures LastBy(rows, Str(room)).Some? ==> var last := LastBy(rows, Str(room)).value;
      ("state" in last && last["state"] == PyNone ==> r == Ok(None))
      && ("state" in last && last["state"].JsonText? && "from_bot" in last
          ==> r == Ok(Some(Pin(last["from_bot"], last["state"].doc))))
      && ("state" in last && last["state"] != PyNone && !last["state"].JsonText? ==> r == Raised(JsonDecodeError))
      && ("state" !in last ==> r == Raised(KeyError))
  {
    match LastBy(rows, Str(room))
    case None => Ok(None)
    case Some(last) =>
      if "state" !in last then Raised(KeyError)
      else if last["state"] == PyNone then Ok(None)
      else match Loads(last["state"])
        case Raised(e) => Raised(e)
        case Ok(state) => if "from_bot" in last then Ok(Some(Pin(last["from_bot"], state))) else Raised(KeyError)
  }

  /** A message stored with a state pins its room to the stored `from_bot` with exactly that
      state: encoding and decoding round-trip. A message without a state unpins the room. */
  lemma RoomStateAfterStore(t: TableState, message: Row, now: Stamp, room: string)
    requires WellFormed(MessageColumns, t)
    requires "id" !in message && "room" in message && message["room"] == Str(room) && Renderable(message)
    ensures RoomState(StoreMessage(t, message, now).0.rows, room) ==
        if Get(message, "state", PyNone) == PyNone then Ok(None)
        else Ok(Some(Pin(Get(message, "from_bot", PyNone), message["state"])))
  {
    StoreMessageAppends(t, message, now);
    var row := StoredMessage(t, message, now);
    StoredMessageFields(t, message, now);
    LastByAppend(t.rows, row, Str(room));
  }

  // ---------------------------------------------------------------------------------
  // Clears.

  const ClearColumns: set<string> := {"id", "room", "last_cleared_id"}

  /** `Clears.set_last_cleared_id(room, k)`: add a marker row for a room that has none,
      otherwise set the marker of every row of that room. */
  function MarkCleared(t: TableState, room: string, k: int): (t': TableState)
    requires WellFormed(ClearColumns, t)
    ensures WellFormed(ClearColumns, t')
  {
    if Find(t.rows, map["room" := Str(room)]).None? then
      Insert(ClearColumns, t, map["room" := Str(room), "last_cleared_id" := Int(k)]).table
    else
      var filter := map["room" := Str(room)];
      var changes := map["last_cleared_id" := Int(k)];
      UpdateKeepsWellFormed(ClearColumns, t, filter, changes);
      TableState(UpdateRows(t.rows, filter, changes), t.seqNo)
  }

  /** The marker of a room as `clears.find(room=room)['last_cleared_id']` reads it. */
  function Marker(rows: seq<Row>, room: string): Option<Value> {
    match Find(rows, map["room" := Str(room)])
    case None => None
    case Some(entry) => Some(Get(entry, "last_cleared_id", PyNone))
  }

  /** An UPDATE that leaves the columns of `g` unchanged on every row it touches keeps the
      first match of `g` in its place, updated. */
  lemma {:induction false} FindUpdated(rows: seq<Row>, f: Row, changes: Row, g: Row)
    requires forall k :: k in g && k in changes ==> k in f && changes[k] == f[k]
    ensures Find(UpdateRows(rows, f, changes), g) ==
      match Find(rows, g)
      case None => None
      case Some(x) => Some(if Matches(x, f) then x + changes else x)
    decreases |rows|
  {
    if rows != [] {
      var u := UpdateRows(rows, f, changes);
      var x := rows[0];
      assert Matches(x, f) ==> (Matches(x + changes, g) <==> Matches(x, g)) by {
        if Matches(x, f) {
          forall k | k in g ensures (k in x + changes && SqlEq((x + changes)[k], g[k])) <==> (k in x && SqlEq(x[k], g[k])) {
            if k in changes { assert k in f; }
          }
        }
      }
      assert u[1..] == UpdateRows(rows[1..], f, changes);
      FindCons(rows, g);
      FindCons(u, g);
      FindUpdated(rows[1..], f, changes, g);
    }
  }

  /** The row set_last_cleared_id adds for a room that has no marker yet. */
  function ClearRow(t: TableState, room: string, k: int): Row {
    Complete(ClearColumns, map["room" := Str(room), "last_cleared_id" := Int(k)])["id" := Int(t.seqNo + 1)]
  }

  lemma ClearRowFields(t: TableState, room: string, k: int)
    ensures ClearRow(t, room, k)["room"] == Str(room) && ClearRow(t, room, k)["last_cleared_id"] == Int(k)
  {
  }

  /** The two ways set_last_cleared_id changes the rows: an appended row, or an UPDATE. */
  lemma MarkClearedRows(t: TableState, room: string, k: int)
    requires WellFormed(ClearColumns, t)
    ensures Find(t.rows, map["room" := Str(room)]).None? ==>
      MarkCleared(t, room, k).rows == t.rows + [ClearRow(t, room, k)]
    ensures Find(t.rows, map["room" := Str(room)]).Some? ==>
      MarkCleared(t, room, k).rows == UpdateRows(t.rows, map["room" := Str(room)], map["last_cleared_id" := Int(k)])
  {
  }

  /** After set_last_cleared_id(room, k) the room's marker reads k. */
  lemma MarkClearedSetsMarker(t: TableState, room: string, k: int)
    requires WellFormed(ClearColumns, t)
    ensures Marker(MarkCleared(t, room, k).rows, room) == Some(Int(k))
  {
    var filter := map["room" := Str(room)];
    var changes := map["last_cleared_id" := Int(k)];
    MarkClearedRows(t, room, k);
    if Find(t.rows, filter).None? {
      var row := ClearRow(t, room, k);
      ClearRowFields(t, room, k);
      assert "room" in filter;
      assert Matches(row, filter);
      FindAppend(t.rows, row, filter);
    } else {
      assert forall key :: key in filter && key in changes ==> false;
      FindUpdated(t.rows, filter, changes, filter);
      var x := Find(t.rows, filter).value;
      assert (x + changes)["last_cleared_id"] == Int(k);
    }
  }

  /** set_last_cleared_id leaves the marker of every other room as it was. */
  lemma MarkClearedKeepsOthers(t: TableState, room: string, k: int, other: string)
    requires WellFormed(ClearColumns, t) && other != room
    ensures Marker(MarkCleared(t, room, k).rows, other) == Marker(t.rows, other)
  {
    var filter := map["room" := Str(room)];
    var changes := map["last_cleared_id" := Int(k)];
    var g := map["room" := Str(other)];
    assert "room" in g;
    MarkClearedRows(t, room, k);
    if Find(t.rows, filter).None? {
      var row := ClearRow(t, room, k);
      ClearRowFields(t, room, k);
      assert !Matches(row, g);
      FindAppend(t.rows, row, g);
    } else {
      FindUpdated(t.rows, filter, changes, g);
      match Find(t.rows, g)
      case None =>
      case Some(x) =>
        assert !Matches(x, filter) by {
          assert "room" in filter;
        }
    }
  }

  // ---------------------------------------------------------------------------------
  // The tables as objects.

  class Table {
    const columns: set<string>
    var rows: seq<Row>
    var seqNo: int

    function State(): TableState
      reads this
    {
      TableState(rows, seqNo)
    }

    ghost predicate Valid()
      reads this
    {
      WellFormed(columns, State())
    }

    constructor (columns: set<string>)
      requires "id" in columns
      ensures Valid() && this.columns == columns && rows == [] && seqNo == 0
    {
      this.columns := columns;
      rows := [];
      seqNo := 0;
    }

    /** `DBList.add`. */
    method Add(kwargs: Row) returns (r: Result<Value>)
      requires Valid() && kwargs.Keys <= columns
      modifies this
      ensures Valid()
      ensures (State(), r) == AddRow(columns, old(State()), kwargs)
    {
      var c := AddRow(columns, State(), kwargs);
      rows, seqNo, r := c.0.rows, c.0.seqNo, c.1;
    }

    /** `DBList.update_or_add`. */
    method UpdateOrAdd(kwargs: Row) returns (r: Result<Option<Row>>)
      requires Valid() && kwargs.Keys <= columns
      modifies this
      ensures Valid()
      ensures (State(), r) == UpsertRow(columns, old(State()), kwargs)
    {
      var c := UpsertRow(columns, State(), kwargs);
      rows, seqNo, r := c.0.rows, c.0.seqNo, c.1;
    }

    /** `DBList.add_if_new`. */
    method AddIfNew(kwargs: Row) returns (r: Result<Value>)
      requires Valid() && kwargs.Keys <= columns
      modifies this
      ensures Valid()
      ensures (State(), r) == InsertIfNew(columns, old(State()), kwargs)
    {
      var c := InsertIfNew(columns, State(), kwargs);
      rows, seqNo, r := c.0.rows, c.0.seqNo, c.1;
    }

    /** `DBList.delete`; the statement yields no row, so the call answers None. */
    method Delete(filter: Row) returns (r: Value)
      requires Valid()
      modifies this
      ensures Valid()
      ensures State() == DeleteRows(old(State()), filter) && r == PyNone
    {
      var t := DeleteRows(State(), filter);
      KeptRowsWellFormed(columns, State(), t);
      rows, seqNo, r := t.rows, t.seqNo, PyNone;
    }

    /** `DBList.remove`. */
    method Remove(id: Value) returns (removed: bool)
      requires Valid()
      modifies this
      ensures Valid()
      ensures (State(), removed) == RemoveRow(old(State()), id)
    {
      var c := RemoveRow(State(), id);
      KeptRowsWellFormed(columns, State(), c.0);
      rows, seqNo, removed := c.0.rows, c.0.seqNo, c.1;
    }

    /** `Messages.add`, with the clock reading `now` as the `when` stamp. */
    method AddMessage(message: Row, now: Stamp) returns (r: Result<Value>)
      requires Valid() && columns == MessageColumns
      modifies this
      ensures Valid()
      ensures (State(), r) == StoreMessage(old(State()), message, now)
    {
      var c := StoreMessage(State(), message, now);
      rows, seqNo, r := c.0.rows, c.0.seqNo, c.1;
    }

    /** `Clears.set_last_cleared_id`. */
    method SetLastClearedId(room: string, k: int)
      requires Valid() && columns == ClearColumns
      modifies this
      ensures Valid()
      ensures State() == MarkCleared(old(State()), room, k)
    {
      var t := MarkCleared(State(), room, k);
      rows, seqNo := t.rows, t.seqNo;
    }
  }
}
