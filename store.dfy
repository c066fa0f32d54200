/**
 * The SQLite helpers of `src/utils.py`: opening a store file, running one query and returning
 * its rows as JSON (or a JSON error object), and reading a store's schema text.
 *
 * SQLite itself is an oracle: `sqlite(path, sql)` is what the engine answers for one statement.
 */
module Store {
  import opened Wrappers
  import opened PyStr
  import PyDict
  import opened Json

  /** The values SQLite hands back for one column of one row. */
  datatype SqlValue =
    | SqlNull
    | SqlInteger(i: int)
    | SqlReal(x: real)
    | SqlText(t: string)
    | SqlBlob(bytes: seq<bv8>)

  /**
   * The engine's answer to one statement: a result set, no result set at all (a statement that
   * returns no rows leaves `cursor.description` as `None`), or a raised `sqlite3.Error`.
   */
  datatype DbReply =
    | ResultSet(columns: seq<string>, rows: seq<seq<SqlValue>>)
    | NoResultSet
    | DbRaised(message: string)

  /** The data directory, the files present in it, and the engine. */
  datatype StoreWorld = StoreWorld(dataDir: string, files: set<string>, sqlite: (string, string) -> DbReply)

  function DbPath(world: StoreWorld, dbName: string): string {
    world.dataDir + "/" + dbName
  }

  function NotFoundMessage(world: StoreWorld, dbName: string): string {
    "Database " + dbName + " not found at " + DbPath(world, dbName)
  }

  /** Lines 5-18: the connection is identified by the file's path; a missing file raises. */
  function GetDbConnection(world: StoreWorld, dbName: string): (r: Result<string, string>)
    ensures r.Success? <==> DbPath(world, dbName) in world.files
    ensures r.Success? ==> r.value == DbPath(world, dbName)
    ensures r.Failure? ==> r.error == NotFoundMessage(world, dbName)
  {
    if DbPath(world, dbName) in world.files then Success(DbPath(world, dbName))
    else Failure(NotFoundMessage(world, dbName))
  }

  // ---------------------------------------------------------------- execute_sql_query

  type Row = PyDict.Dict<SqlValue>

  /** `zip(columns, row)`: stops at the shorter of the two. */
  function Zip(columns: seq<string>, row: seq<SqlValue>): (pairs: seq<(string, SqlValue)>)
    ensures |pairs| == if |columns| <= |row| then |columns| else |row|
    ensures forall i :: 0 <= i < |pairs| ==> pairs[i] == (columns[i], row[i])
  {
    var n := if |columns| <= |row| then |columns| else |row|;
    seq(n, i requires 0 <= i < n => (columns[i], row[i]))
  }

  /** `dict(zip(columns, row))` (line 32). */
  function RowOf(columns: seq<string>, row: seq<SqlValue>): Row {
    PyDict.FromPairs(Zip(columns, row))
  }

  /** The list built by the loop at lines 30-32. */
  function RowsOf(columns: seq<string>, rows: seq<seq<SqlValue>>): (results: seq<Row>)
    ensures |results| == |rows|
    ensures forall k :: 0 <= k < |rows| ==> results[k] == RowOf(columns, rows[k])
  {
    seq(|rows|, k requires 0 <= k < |rows| => RowOf(columns, rows[k]))
  }

  const BytesError: string := "Object of type bytes is not JSON serializable"
  const NoResultSetError: string := "'NoneType' object is not iterable"

  /** Some value kept in the row dict is a blob, which `json.dumps` refuses. */
  predicate RowHasBlob(row: Row) {
    exists i :: 0 <= i < |row| && row[i].1.SqlBlob?
  }

  /** Some row dict holds a blob. */
  predicate HasBlob(results: seq<Row>) {
    exists k :: 0 <= k < |results| && RowHasBlob(results[k])
  }

  /** One value after `json.dumps` and the caller's `json.loads`. */
  function ValueJson(v: SqlValue): Json {
    match v
    case SqlNull => JNull
    case SqlInteger(i) => JInt(i)
    case SqlReal(x) => JReal(x)
    case SqlText(t) => JStr(t)
    case SqlBlob(_) => JNull
  }

  /** One row dict after `json.dumps` and `json.loads`: same keys, same order. */
  function RowJson(row: Row): (d: PyDict.Dict<Json>)
    ensures |d| == |row|
    ensures forall i :: 0 <= i < |row| ==> d[i] == (row[i].0, ValueJson(row[i].1))
  {
    seq(|row|, i requires 0 <= i < |row| => (row[i].0, ValueJson(row[i].1)))
  }

  /**
   * `json.dumps(results)` of line 35, read back by the caller: the row objects in order, or the
   * error object of the `TypeError` a blob raises inside the `try`.
   */
  function Serialize(results: seq<Row>): Json
    decreases |results|
  {
    if |results| == 0 then JList([])
    else
      var front, last := results[..|results| - 1], results[|results| - 1];
      match Serialize(front)
      case JList(items) => if RowHasBlob(last) then ErrorObject(BytesError) else JList(items + [JObj(RowJson(last))])
      case other => other
  }

  /** Serialising fails exactly when some row holds a blob, and otherwise keeps every row, in order. */
  lemma {:induction false} SerializeMeaning(results: seq<Row>)
    ensures HasBlob(results) ==> Serialize(results) == ErrorObject(BytesError)
    ensures !HasBlob(results) ==>
      && Serialize(results).JList? && |Serialize(results).items| == |results|
      && forall k :: 0 <= k < |results| ==> Serialize(results).items[k] == JObj(RowJson(results[k]))
    decreases |results|
  {
    if |results| > 0 {
      var front, last := results[..|results| - 1], results[|results| - 1];
      SerializeMeaning(front);
      assert HasBlob(results) <==> HasBlob(front) || RowHasBlob(last) by {
        if HasBlob(front) {
          var k :| 0 <= k < |front| && RowHasBlob(front[k]);
          assert results[k] == front[k];
        }
        if HasBlob(results) {
          var k :| 0 <= k < |results| && RowHasBlob(results[k]);
          if k < |front| {
            assert front[k] == results[k];
          }
        }
      }
      if !HasBlob(results) {
        assert forall k :: 0 <= k < |front| ==> front[k] == results[k];
      }
    }
  }

  /** What `json.loads(execute_sql_query(db_name, sql))` yields (lines 20-37). */
  function QueryResult(world: StoreWorld, dbName: string, sql: string): Json {
    match GetDbConnection(world, dbName)
    case Failure(e) => ErrorObject(e)
    case Success(path) =>
      match world.sqlite(path, sql)
      case DbRaised(m) => ErrorObject(m)
      case NoResultSet => ErrorObject(NoResultSetError)
      case ResultSet(columns, rows) => Serialize(RowsOf(columns, rows))
  }

  /** Lines 20-37, with the row loop of lines 30-32. */
  method ExecuteSqlQuery(world: StoreWorld, dbName: string, sql: string) returns (r: Json)
    ensures r == QueryResult(world, dbName, sql)
  {
    var conn := GetDbConnection(world, dbName);
    if conn.Failure? {
      return ErrorObject(conn.error);
    }
    var reply := world.sqlite(conn.value, sql);
    if reply.DbRaised? {
      return ErrorObject(reply.message);
    }
    if reply.NoResultSet? {
      return ErrorObject(NoResultSetError);
    }
    var columns, rows := reply.columns, reply.rows;
    var results: seq<Row> := [];
    var i := 0;
    while i < |rows|
      invariant 0 <= i <= |rows|
      invariant |results| == i
      invariant forall k :: 0 <= k < i ==> results[k] == RowOf(columns, rows[k])
    {
      results := results + [RowOf(columns, rows[i])];
      i := i + 1;
    }
    assert results == RowsOf(columns, rows);
    r := Serialize(results);
  }

  /** The executor never raises: its result is a list of row objects or a one-key error object. */
  lemma QueryResultShape(world: StoreWorld, dbName: string, sql: string)
    ensures var r := QueryResult(world, dbName, sql);
      IsErrorObject(r) || (r.JList? && forall k :: 0 <= k < |r.items| ==> r.items[k].JObj?)
  {
    var path := DbPath(world, dbName);
    if path in world.files && world.sqlite(path, sql).ResultSet? {
      var reply := world.sqlite(path, sql);
      SerializeMeaning(RowsOf(reply.columns, reply.rows));
    }
  }

  /** Each failure of lines 22-35 becomes `{"error": str(e)}` with the exception's own text. */
  lemma QueryErrors(world: StoreWorld, dbName: string, sql: string)
    ensures DbPath(world, dbName) !in world.files ==>
      QueryResult(world, dbName, sql) == ErrorObject(NotFoundMessage(world, dbName))
    ensures DbPath(world, dbName) in world.files ==>
      var reply := world.sqlite(DbPath(world, dbName), sql);
      && (reply.DbRaised? ==> QueryResult(world, dbName, sql) == ErrorObject(reply.message))
      && (reply.NoResultSet? ==> QueryResult(world, dbName, sql) == ErrorObject(NoResultSetError))
      && (reply.ResultSet? && HasBlob(RowsOf(reply.columns, reply.rows)) ==>
            QueryResult(world, dbName, sql) == ErrorObject(BytesError))
  {
    var path := DbPath(world, dbName);
    if path in world.files && world.sqlite(path, sql).ResultSet? {
      var reply := world.sqlite(path, sql);
      SerializeMeaning(RowsOf(reply.columns, reply.rows));
    }
  }

  /** Without a blob, there is one JSON object per fetched row, in fetch order. */
  lemma QueryRecords(world: StoreWorld, dbName: string, sql: string)
    requires DbPath(world, dbName) in world.files
    requires world.sqlite(DbPath(world, dbName), sql).ResultSet?
    requires var reply := world.sqlite(DbPath(world, dbName), sql);
      !HasBlob(RowsOf(reply.columns, reply.rows))
    ensures var reply := world.sqlite(DbPath(world, dbName), sql);
      var r := QueryResult(world, dbName, sql);
      && r.JList? && |r.items| == |reply.rows|
      && forall k :: 0 <= k < |reply.rows| ==> r.items[k] == JObj(RowJson(RowOf(reply.columns, reply.rows[k])))
  {
    var reply := world.sqlite(DbPath(world, dbName), sql);
    SerializeMeaning(RowsOf(reply.columns, reply.rows));
  }

  /** Looking a key up after serialising finds the serialised value. */
  lemma {:induction false} RowJsonGet(row: Row, key: string)
    ensures PyDict.Get(RowJson(row), key) ==
      match PyDict.Get(row, key) case None => None case Some(v) => Some(ValueJson(v))
  {
    if |row| > 0 {
      assert RowJson(row)[1..] == RowJson(row[1..]);
      RowJsonGet(row[1..], key);
    }
  }

  /**
   * A column name that occurs among the first `min(|columns|, |row|)` columns maps to the value
   * at its LAST such position: a later duplicate overwrites an earlier one.
   */
  lemma RowOfGet(columns: seq<string>, row: seq<SqlValue>, c: nat)
    requires c < |columns| && c < |row|
    requires forall c' :: c < c' < |columns| && c' < |row| ==> columns[c'] != columns[c]
    ensures PyDict.Get(RowOf(columns, row), columns[c]) == Some(row[c])
  {
    PyDict.FromPairsGet(Zip(columns, row), c);
  }

  /** A name that is not among the zipped columns is not a key of the row dict. */
  lemma RowOfAbsent(columns: seq<string>, row: seq<SqlValue>, key: string)
    requires forall c :: 0 <= c < |columns| && c < |row| ==> columns[c] != key
    ensures PyDict.Get(RowOf(columns, row), key).None?
  {
    PyDict.FromPairsAbsent(Zip(columns, row), key);
  }

  /** A row with no blob among its values gives a row dict with no blob among its values. */
  lemma RowOfAbsentBlob(columns: seq<string>, row: seq<SqlValue>)
    requires forall i :: 0 <= i < |row| ==> !row[i].SqlBlob?
    ensures forall i :: 0 <= i < |RowOf(columns, row)| ==> !RowOf(columns, row)[i].1.SqlBlob?
  {
    PyDict.FromPairsPreserves(Zip(columns, row), (e: (string, SqlValue)) => !e.1.SqlBlob?);
  }

  /**
   * The round trip of a well-formed row: with distinct column names and one value per column,
   * its object has exactly the columns as keys, in order, each holding its own column's value.
   */
  lemma RowRoundTrip(columns: seq<string>, row: seq<SqlValue>)
    requires |row| == |columns|
    requires forall i, j :: 0 <= i < j < |columns| ==> columns[i] != columns[j]
    ensures PyDict.Keys(RowJson(RowOf(columns, row))) == columns
    ensures forall i :: 0 <= i < |columns| ==>
      PyDict.Get(RowJson(RowOf(columns, row)), columns[i]) == Some(ValueJson(row[i]))
  {
    var pairs := Zip(columns, row);
    PyDict.FromPairsKeys(pairs);
    assert PyDict.Keys(pairs) == columns;
    assert PyDict.Keys(RowJson(RowOf(columns, row))) == PyDict.Keys(RowOf(columns, row));
    forall i | 0 <= i < |columns|
      ensures PyDict.Get(RowJson(RowOf(columns, row)), columns[i]) == Some(ValueJson(row[i]))
    {
      RowOfGet(columns, row, i);
      RowJsonGet(RowOf(columns, row), columns[i]);
    }
  }

  // ---------------------------------------------------------------- get_schema

  const MasterQuery: string := "SELECT sql FROM sqlite_master WHERE type='table';"

  function SchemaHeader(dbName: string): string {
    "Schema for " + dbName + ":\n"
  }

  /** Python's name for the type of a non-text value, as `+` reports it. */
  function TypeName(v: SqlValue): string {
    match v
    case SqlNull => "NoneType"
    case SqlInteger(_) => "int"
    case SqlReal(_) => "float"
    case SqlText(_) => "str"
    case SqlBlob(_) => "bytes"
  }

  /** `table[0]` of line 49, or the error that expression raises. */
  function TableText(row: seq<SqlValue>): (r: Result<string, string>)
    ensures r.Success? <==> |row| > 0 && row[0].SqlText?
    ensures r.Success? ==> r.value == row[0].t
  {
    if |row| == 0 then Failure("tuple index out of range")
    else match row[0]
      case SqlText(t) => Success(t)
      case SqlBlob(_) => Failure("can't concat str to bytes")
      case _ => Failure("unsupported operand type(s) for +: '" + TypeName(row[0]) + "' and 'str'")
  }

  /** The table texts of all rows, or the error of the first row that has none. */
  function TableTexts(rows: seq<seq<SqlValue>>): (r: Result<seq<string>, string>)
    ensures r.Success? ==> |r.value| == |rows|
    ensures r.Success? <==> forall k :: 0 <= k < |rows| ==> TableText(rows[k]).Success?
    ensures r.Success? ==> forall k :: 0 <= k < |rows| ==> r.value[k] == TableText(rows[k]).value
  {
    if |rows| == 0 then Success([])
    else
      var front := rows[..|rows| - 1];
      match TableTexts(front)
      case Failure(e) => Failure(e)
      case Success(texts) =>
        match TableText(rows[|rows| - 1])
        case Failure(e) => Failure(e)
        case Success(t) => Success(texts + [t])
  }

  /** Each table text followed by a newline (lines 48-49). */
  function TableLines(texts: seq<string>): string {
    if |texts| == 0 then "" else texts[0] + "\n" + TableLines(texts[1..])
  }

  /** Lines 39-52: the schema text, or the message of what raised. */
  function SchemaFor(world: StoreWorld, dbName: string): Result<string, string> {
    match GetDbConnection(world, dbName)
    case Failure(e) => Failure(e)
    case Success(path) =>
      match world.sqlite(path, MasterQuery)
      case DbRaised(m) => Failure(m)
      case NoResultSet => Success(SchemaHeader(dbName))
      case ResultSet(_, rows) =>
        match TableTexts(rows)
        case Failure(e) => Failure(e)
        case Success(texts) => Success(SchemaHeader(dbName) + TableLines(texts))
  }

  lemma {:induction false} TableLinesSnoc(texts: seq<string>, t: string)
    ensures TableLines(texts + [t]) == TableLines(texts) + t + "\n"
  {
    if |texts| > 0 {
      assert (texts + [t])[1..] == texts[1..] + [t];
      TableLinesSnoc(texts[1..], t);
    }
  }

  /** Once some prefix of the rows fails, the whole fails with the same error. */
  lemma {:induction false} TableTextsFailurePropagates(rows: seq<seq<SqlValue>>, n: nat)
    requires n <= |rows|
    requires TableTexts(rows[..n]).Failure?
    ensures TableTexts(rows) == TableTexts(rows[..n])
    decreases |rows| - n
  {
    if n < |rows| {
      var front := rows[..|rows| - 1];
      assert front[..n] == rows[..n];
      TableTextsFailurePropagates(front, n);
    } else {
      assert rows[..n] == rows;
    }
  }

  /** Lines 39-52, with the loop of lines 48-49. */
  method GetSchema(world: StoreWorld, dbName: string) returns (r: Result<string, string>)
    ensures r == SchemaFor(world, dbName)
  {
    var conn := GetDbConnection(world, dbName);
    if conn.Failure? {
      return Failure(conn.error);
    }
    var reply := world.sqlite(conn.value, MasterQuery);
    if reply.DbRaised? {
      return Failure(reply.message);
    }
    r := BuildSchema(dbName, if reply.ResultSet? then reply.rows else []);
    assert SchemaHeader(dbName) + TableLines([]) == SchemaHeader(dbName);
  }

  /** Lines 46-52: the header, then one line per table row, or the first row's error. */
  method BuildSchema(dbName: string, rows: seq<seq<SqlValue>>) returns (r: Result<string, string>)
    ensures r == match TableTexts(rows)
      case Failure(e) => Failure(e)
      case Success(texts) => Success(SchemaHeader(dbName) + TableLines(texts))
  {
    var s := SchemaHeader(dbName);
    ghost var texts: seq<string> := [];
    var i := 0;
    while i < |rows|
      invariant 0 <= i <= |rows|
      invariant TableTexts(rows[..i]) == Success(texts)
      invariant s == SchemaHeader(dbName) + TableLines(texts)
    {
      assert rows[..i + 1][..i] == rows[..i];
      var t := TableText(rows[i]);
      if t.Failure? {
        TableTextsFailurePropagates(rows, i + 1);
        return Failure(t.error);
      }
      TableLinesSnoc(texts, t.value);
      texts := texts + [t.value];
      s := s + t.value + "\n";
      i := i + 1;
    }
    assert rows[..i] == rows;
    r := Success(s);
  }

  predicate NoNewline(s: string) {
    forall k :: 0 <= k < |s| ==> s[k] != '\n'
  }

  lemma NoNewlineConcat(a: string, b: string)
    requires NoNewline(a) && NoNewline(b)
    ensures NoNewline(a + b)
  {
    forall k | 0 <= k < |a + b| ensures (a + b)[k] != '\n' {
      if k >= |a| {
        assert (a + b)[k] == b[k - |a|];
      }
    }
  }

  lemma SplitAtNewline(a: string, b: string)
    requires NoNewline(a)
    ensures Split(a + "\n" + b, "\n") == [a] + Split(b, "\n")
  {
    var s := a + "\n" + b;
    assert OccursAt(s, "\n", |a|);
    assert IndexOf(s, "\n") == Some(|a|) by {
      forall k | 0 <= k < |a| ensures !OccursAt(s, "\n", k) {
        assert s[k] == a[k];
      }
    }
    assert s[..|a|] == a;
    assert s[|a| + 1..] == b;
  }

  /**
   * The schema text reads back line by line: the header, then one line per table, then the empty
   * remainder after the final newline, provided no name or table text holds a newline itself.
   */
  lemma {:induction false} SchemaLines(dbName: string, texts: seq<string>)
    requires NoNewline(dbName)
    requires forall k :: 0 <= k < |texts| ==> NoNewline(texts[k])
    ensures Split(SchemaHeader(dbName) + TableLines(texts), "\n") == ["Schema for " + dbName + ":"] + texts + [""]
  {
    var head := "Schema for " + dbName + ":";
    HeaderHasNoNewline(dbName);
    assert SchemaHeader(dbName) + TableLines(texts) == head + "\n" + TableLines(texts);
    SplitAtNewline(head, TableLines(texts));
    LinesSplit(texts);
  }

  lemma HeaderHasNoNewline(dbName: string)
    requires NoNewline(dbName)
    ensures NoNewline("Schema for " + dbName + ":")
  {
    var prefix := "Schema for ";
    assert NoNewline(prefix) by {
      forall k | 0 <= k < |prefix| ensures prefix[k] != '\n' {
        assert prefix[k] in "Schema for";
      }
    }
    NoNewlineConcat(prefix, dbName);
    NoNewlineConcat(prefix + dbName, ":");
  }

  lemma {:induction false} LinesSplit(texts: seq<string>)
    requires forall k :: 0 <= k < |texts| ==> NoNewline(texts[k])
    ensures Split(TableLines(texts), "\n") == texts + [""]
  {
    if |texts| == 0 {
      assert !Contains("", "\n");
    } else {
      var rest := texts[1..];
      assert forall k :: 0 <= k < |rest| ==> rest[k] == texts[k + 1];
      assert TableLines(texts) == texts[0] + "\n" + TableLines(rest);
      SplitAtNewline(texts[0], TableLines(rest));
      LinesSplit(rest);
      ConsAppend(texts, "");
    }
  }

  lemma ConsAppend<T>(s: seq<T>, x: T)
    requires |s| > 0
    ensures s + [x] == [s[0]] + (s[1..] + [x])
  {
    assert s == [s[0]] + s[1..];
  }
}
