/**
 * The per-store loop of `run_query` (orchestrator lines 138-169) as a function of the SQL
 * statements the model wrote: what it appends to the thought log, the ID hints it gathers, the
 * hint text each translation receives and the results it keeps per store.
 */
module RunSpec {
  import opened Wrappers
  import opened PyStr
  import PyDict
  import opened Json
  import Store
  import Hints
  import SqlGate

  /** Lines 19-24: the known stores and their files, in this order. */
  const Databases: PyDict.Dict<string> :=
    [("ShopCore", "DB_ShopCore.db"), ("ShipStream", "DB_ShipStream.db"),
     ("PayGuard", "DB_PayGuard.db"), ("CareDesk", "DB_CareDesk.db")]

  /** `db_name in self.databases` (line 142). */
  predicate IsKnown(db: string) {
    db in PyDict.Keys(Databases)
  }

  lemma DatabasesKeys()
    ensures PyDict.Keys(Databases) == ["ShopCore", "ShipStream", "PayGuard", "CareDesk"]
    ensures PyDict.UniqueKeys(Databases)
  {
  }

  /** `self.databases[db_name]` (line 153). */
  function DbFile(db: string): string
    requires IsKnown(db)
  {
    PyDict.Get(Databases, db).value
  }

  predicate AllKnown(stores: seq<string>) {
    forall j :: 0 <= j < |stores| ==> IsKnown(stores[j])
  }

  /** The plan entries the loop acts on: the known ones, in plan order, repeats included. */
  function Known(plan: seq<string>): (stores: seq<string>)
    ensures AllKnown(stores)
  {
    if |plan| == 0 then []
    else
      var front, last := plan[..|plan| - 1], plan[|plan| - 1];
      assert plan == front + [last];
      Known(front) + if IsKnown(last) then [last] else []
  }

  /** Each known store is visited as often as the plan names it, and no other name at all. */
  lemma {:induction false} KnownCounts(plan: seq<string>, x: string)
    ensures multiset(Known(plan))[x] == if IsKnown(x) then multiset(plan)[x] else 0
  {
    if |plan| > 0 {
      var front, last := plan[..|plan| - 1], plan[|plan| - 1];
      KnownCounts(front, x);
      assert plan == front + [last];
      assert multiset(plan) == multiset(front) + multiset([last]);
    }
  }

  /** A plan of known stores only is visited exactly as written. */
  lemma {:induction false} KnownOfKnown(plan: seq<string>)
    requires AllKnown(plan)
    ensures Known(plan) == plan
  {
    if |plan| > 0 {
      KnownOfKnown(plan[..|plan| - 1]);
    }
  }

  /** Visiting `a` then `b` visits the known stores of `a`, then those of `b`. */
  lemma {:induction false} KnownAppend(a: seq<string>, b: seq<string>)
    ensures Known(a + b) == Known(a) + Known(b)
  {
    if |b| == 0 {
      assert a + b == a;
    } else {
      var front, last := b[..|b| - 1], b[|b| - 1];
      var tail := if IsKnown(last) then [last] else [];
      assert (a + b)[..|a + b| - 1] == a + front;
      assert (a + b)[|a + b| - 1] == last;
      assert Known(a + b) == Known(a + front) + tail;
      KnownAppend(a, front);
      assert Known(b) == Known(front) + tail;
    }
  }

  /** Lines 153-154: the parsed result of one store's statement. */
  function ResultOf(world: Store.StoreWorld, db: string, sql: string): Json
    requires IsKnown(db)
  {
    Store.QueryResult(world, DbFile(db), sql)
  }

  /**
   * One turn of the loop for a known store: the hint text its translation was given, the raw
   * reply, the statement made of it and the parsed result.
   */
  datatype Visit = Visit(db: string, summary: string, reply: string, sql: string, result: Json)

  function Stores(visits: seq<Visit>): (stores: seq<string>)
    ensures |stores| == |visits|
    ensures forall j :: 0 <= j < |visits| ==> stores[j] == visits[j].db
  {
    seq(|visits|, j requires 0 <= j < |visits| => visits[j].db)
  }

  lemma StoresSnoc(visits: seq<Visit>, v: Visit)
    ensures Stores(visits + [v]) == Stores(visits) + [v.db]
  {
    assert forall j :: 0 <= j < |visits| ==> (visits + [v])[j] == visits[j];
  }

  /** Each visit's statement is its reply post-processed, and its result is what the executor answers for it. */
  predicate Executed(world: Store.StoreWorld, visits: seq<Visit>) {
    forall j :: 0 <= j < |visits| ==> ExecutedVisit(world, visits[j])
  }

  predicate ExecutedVisit(world: Store.StoreWorld, v: Visit) {
    && IsKnown(v.db)
    && v.sql == SqlGate.PostProcess(v.reply)
    && v.result == ResultOf(world, v.db, v.sql)
  }

  lemma ExecutedExtend(world: Store.StoreWorld, visits: seq<Visit>, v: Visit)
    requires Executed(world, visits)
    requires ExecutedVisit(world, v)
    ensures Executed(world, visits + [v])
  {
    AllSnoc(visits, v, (u: Visit) => ExecutedVisit(world, u));
  }

  /** A property of every element and of one more holds of every element of the longer sequence. */
  lemma AllSnoc<T>(xs: seq<T>, x: T, ok: T -> bool)
    requires forall j :: 0 <= j < |xs| ==> ok(xs[j])
    requires ok(x)
    ensures forall j :: 0 <= j < |xs + [x]| ==> ok((xs + [x])[j])
  {
    var ys := xs + [x];
    forall j | 0 <= j < |ys| ensures ok(ys[j]) {
      if j < |xs| {
        assert ys[j] == xs[j];
      }
    }
  }

  /** Line 150. */
  function QueryEntry(db: string, sql: string): string {
    "Querying " + db + " with SQL: " + sql
  }

  /** Line 160. */
  function FoundEntry(db: string, n: nat): string {
    "Found " + NatToString(n) + " records in " + db + "."
  }

  /** Line 167. */
  function NoRecordsEntry(db: string): string {
    "No records found in " + db + "."
  }

  /** Lines 159-167: the entry after a store's result. */
  function OutcomeEntry(db: string, result: Json): string {
    if IsNonEmptyList(result) then FoundEntry(db, |result.items|) else NoRecordsEntry(db)
  }

  /** The records the hint loop visits: those of a non-empty list, none otherwise. */
  function Records(result: Json): seq<Json> {
    if IsNonEmptyList(result) then result.items else []
  }

  /** The entries the loop appends for the visits so far (lines 150, 160, 167). */
  function LoopLog(visits: seq<Visit>): (log: seq<string>)
    ensures |log| == 2 * |visits|
  {
    if |visits| == 0 then []
    else
      var v := visits[|visits| - 1];
      LoopLog(visits[..|visits| - 1]) + [QueryEntry(v.db, v.sql), OutcomeEntry(v.db, v.result)]
  }

  lemma LoopLogSnoc(visits: seq<Visit>, v: Visit)
    ensures LoopLog(visits + [v]) == LoopLog(visits) + [QueryEntry(v.db, v.sql), OutcomeEntry(v.db, v.result)]
  {
    assert (visits + [v])[..|visits|] == visits;
  }

  /** Every record of every visit, in visiting order. */
  function AllRecords(visits: seq<Visit>): seq<Json> {
    if |visits| == 0 then []
    else AllRecords(visits[..|visits| - 1]) + Records(visits[|visits| - 1].result)
  }

  /** `id_hints` after the visits so far: gathered from all their records in order (lines 139, 162-165). */
  function LoopHints(visits: seq<Visit>): Hints.Hints {
    Hints.HintsAfter([], AllRecords(visits))
  }

  /** Each visit's translation was given the hint text of the hints gathered before it (line 145). */
  predicate Hinted(dumps: Json -> string, visits: seq<Visit>) {
    forall j :: 0 <= j < |visits| ==> visits[j].summary == Hints.ContextSummary(LoopHints(visits[..j]), dumps)
  }

  lemma HintedExtend(dumps: Json -> string, visits: seq<Visit>, v: Visit)
    requires Hinted(dumps, visits)
    requires v.summary == Hints.ContextSummary(LoopHints(visits), dumps)
    ensures Hinted(dumps, visits + [v])
  {
    var vs := visits + [v];
    forall j | 0 <= j < |vs| ensures vs[j].summary == Hints.ContextSummary(LoopHints(vs[..j]), dumps) {
      assert vs[..j] == if j < |visits| then visits[..j] else visits;
      if j < |visits| {
        assert vs[j] == visits[j];
      }
    }
  }

  /** `cumulative_context` after the visits so far (lines 138, 157). */
  function LoopContext(visits: seq<Visit>): PyDict.Dict<Json> {
    if |visits| == 0 then []
    else
      var v := visits[|visits| - 1];
      PyDict.Put(LoopContext(visits[..|visits| - 1]), v.db, v.result)
  }

  /**
   * The log of the loop: for the j-th visit, one "Querying" entry with its statement and then
   * one outcome entry, "Found N records" for a non-empty list and "No records found" else.
   */
  lemma {:induction false} LoopLogEntries(visits: seq<Visit>)
    ensures forall j :: 0 <= j < |visits| ==>
      && LoopLog(visits)[2 * j] == QueryEntry(visits[j].db, visits[j].sql)
      && LoopLog(visits)[2 * j + 1] == OutcomeEntry(visits[j].db, visits[j].result)
  {
    if |visits| > 0 {
      LoopLogEntries(visits[..|visits| - 1]);
    }
  }

  /**
   * `log` is `base` followed, for the j-th of `stores`, by a "Querying" entry with the j-th
   * visit's statement and then that visit's outcome entry, and nothing else.
   */
  ghost predicate LogsVisits(log: seq<string>, base: seq<string>, stores: seq<string>, visits: seq<Visit>) {
    && |log| == |base| + 2 * |stores| && log[..|base|] == base && |visits| == |stores|
    && forall j :: 0 <= j < |stores| ==>
      && log[|base| + 2 * j] == QueryEntry(stores[j], visits[j].sql)
      && log[|base| + 2 * j + 1] == OutcomeEntry(stores[j], visits[j].result)
  }

  /** The loop's entries after any earlier log are two per visit, in the order of the visits. */
  lemma LoopLogLogsVisits(base: seq<string>, visits: seq<Visit>)
    ensures LogsVisits(base + LoopLog(visits), base, Stores(visits), visits)
  {
    LoopLogEntries(visits);
    var log := base + LoopLog(visits);
    assert log[..|base|] == base;
    forall j | 0 <= j < |visits|
      ensures log[|base| + 2 * j] == QueryEntry(visits[j].db, visits[j].sql)
      ensures log[|base| + 2 * j + 1] == OutcomeEntry(visits[j].db, visits[j].result)
    {
      assert log[|base| + 2 * j] == LoopLog(visits)[2 * j];
      assert log[|base| + 2 * j + 1] == LoopLog(visits)[2 * j + 1];
    }
  }

  /**
   * A store whose query failed is reported as having no records, because the error object is a
   * dict; it yields no records for the hints either.
   */
  lemma ErrorIsLoggedAsNoRecords(db: string, result: Json)
    requires IsErrorObject(result)
    ensures OutcomeEntry(db, result) == NoRecordsEntry(db)
    ensures Records(result) == []
  {
  }

  /** The loop never writes an "Error querying" entry (the handler of lines 168-169 is never reached). */
  lemma NoEntryStartsWithError(visits: seq<Visit>)
    ensures forall i :: 0 <= i < |LoopLog(visits)| ==> !StartsWith(LoopLog(visits)[i], "Error querying ")
  {
    var log := LoopLog(visits);
    LoopLogEntries(visits);
    var e := "Error querying ";
    assert e[0] == 'E';
    forall i | 0 <= i < |log| ensures !StartsWith(log[i], e) {
      var j := i / 2;
      EntryInitials(visits[j].db, visits[j].sql, visits[j].result);
    }
  }

  /** A query entry starts with 'Q', an outcome entry with 'F' or 'N'. */
  lemma EntryInitials(db: string, sql: string, result: Json)
    ensures |QueryEntry(db, sql)| > 0 && QueryEntry(db, sql)[0] == 'Q'
    ensures |OutcomeEntry(db, result)| > 0 && OutcomeEntry(db, result)[0] in "FN"
  {
  }

  /**
   * The sentinel statement answered with its one row, as SQLite answers it, is logged as one
   * record found, not as an error.
   */
  lemma SentinelIsLoggedAsFound(world: Store.StoreWorld, db: string, sql: string)
    requires IsKnown(db)
    requires Store.DbPath(world, DbFile(db)) in world.files
    requires world.sqlite(Store.DbPath(world, DbFile(db)), sql) ==
      Store.ResultSet(["Error"], [[Store.SqlText("Error: Invalid SQL generated")]])
    ensures OutcomeEntry(db, ResultOf(world, db, sql)) == FoundEntry(db, 1)
  {
    var rows := Store.RowsOf(["Error"], [[Store.SqlText("Error: Invalid SQL generated")]]);
    assert rows[0] == Store.RowOf(["Error"], [Store.SqlText("Error: Invalid SQL generated")]);
    Store.RowOfAbsentBlob(["Error"], [Store.SqlText("Error: Invalid SQL generated")]);
    assert !Store.HasBlob(rows);
    Store.SerializeMeaning(rows);
  }

  /** One more visit: its records are gathered on top of the hints so far. */
  lemma LoopHintsStep(visits: seq<Visit>, v: Visit)
    ensures LoopHints(visits + [v]) == Hints.HintsAfter(LoopHints(visits), Records(v.result))
  {
    assert (visits + [v])[..|visits|] == visits;
    Hints.HintsAfterAppend([], AllRecords(visits), Records(v.result));
  }

  /** The hints are ID names with truthy values, each once. */
  lemma LoopHintsWellFormed(visits: seq<Visit>)
    ensures Hints.WellFormed(LoopHints(visits))
  {
    Hints.HintsAfterWellFormed([], AllRecords(visits));
  }

  /** The first translation always hears "No IDs found yet.". */
  lemma FirstSummaryIsNoIds(dumps: Json -> string, visits: seq<Visit>)
    requires Hinted(dumps, visits) && |visits| > 0
    ensures visits[0].summary == Hints.NoIdsYet
  {
    assert visits[..0] == [];
  }

  lemma {:induction false} NoRecordsAtAll(visits: seq<Visit>)
    requires forall j :: 0 <= j < |visits| ==> !IsNonEmptyList(visits[j].result)
    ensures AllRecords(visits) == []
  {
    if |visits| > 0 {
      NoRecordsAtAll(visits[..|visits| - 1]);
    }
  }

  /** When no store returns records, no hint is gathered and every translation hears "No IDs found yet.". */
  lemma NoRecordsNoHints(dumps: Json -> string, visits: seq<Visit>)
    requires Hinted(dumps, visits)
    requires forall j :: 0 <= j < |visits| ==> !IsNonEmptyList(visits[j].result)
    ensures LoopHints(visits) == []
    ensures forall j :: 0 <= j < |visits| ==> visits[j].summary == Hints.NoIdsYet
  {
    NoRecordsAtAll(visits);
    forall j | 0 <= j < |visits| ensures visits[j].summary == Hints.NoIdsYet {
      NoRecordsAtAll(visits[..j]);
    }
  }

  /** `visits[j]` is the last visit of `db`. */
  predicate LastVisit(visits: seq<Visit>, db: string, j: int) {
    0 <= j < |visits| && visits[j].db == db && forall j' :: j < j' < |visits| ==> visits[j'].db != db
  }

  /** A store the loop never visited has no entry in `cumulative_context`. */
  lemma {:induction false} LoopContextUnvisited(visits: seq<Visit>, db: string)
    requires forall j :: 0 <= j < |visits| ==> visits[j].db != db
    ensures PyDict.Get(LoopContext(visits), db).None?
  {
    if |visits| > 0 {
      var n := |visits| - 1;
      assert forall j :: 0 <= j < n ==> visits[..n][j] == visits[j];
      LoopContextUnvisited(visits[..n], db);
    }
  }

  /** `cumulative_context[db]` holds the result of the last visit of `db`. */
  lemma {:induction false} LoopContextLast(visits: seq<Visit>, db: string, j: int)
    requires LastVisit(visits, db, j)
    ensures PyDict.Get(LoopContext(visits), db) == Some(visits[j].result)
  {
    var n := |visits| - 1;
    if j < n {
      assert forall k :: 0 <= k < n ==> visits[..n][k] == visits[k];
      assert LastVisit(visits[..n], db, j);
      LoopContextLast(visits[..n], db, j);
    }
  }
}
