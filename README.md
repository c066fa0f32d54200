# Omni-Retail orchestrator, modelled in Dafny

This project models the deterministic control of the Omni-Retail "Omni-Agent"
(`src/orchestrator_groq.py`) and the SQLite helpers it relies on (`src/utils.py`), and proves
properties of that model.

The agent answers a customer's question in four steps:

1. It asks a chat model for a plan: which of the four data stores (ShopCore, ShipStream,
   PayGuard, CareDesk) to query, and in which order.
2. It visits each known store of the plan in turn. For each one it asks the model for a single
   SELECT statement, given the schema text and a summary of the IDs gathered so far. It cleans
   the statement and replaces it with a fixed sentinel unless it starts with `select`. It runs the
   statement, logs what it found, keeps the result, and gathers ID hints from the rows.
3. It asks the model for a final answer over everything it gathered.
4. The agent starts on a primary model, and each call uses the model it is on at that moment.
   After a rate-limit error (one whose text contains "429") the agent retries once on a fallback
   model and stays on it for good.

What the model treats as oracles:

- **The chat service** is a `ChatClient` object. Its constant `respond(k, call)` is the answer
  (content or raised error text) to the k-th call it receives, and `sent` records the calls sent.
- **SQLite and the data directory** are a `StoreWorld` value: the set of files present and the
  engine's answer `sqlite(path, sql)` to one statement.
- **`json.loads` and `json.dumps`** are agent constants. `loads` gives `None` where it raises.

The modules follow the source:

- `Orchestrator`: the `OmniAgent` class, with its mutable `currentModel` and `thoughtLog`, and
  its methods `CallLlm`, `GetSqlFromLlm`, `Plan`, `QueryStores` and `RunQuery`. Each method is
  proved to change the agent's state, and to return, exactly what a function of `Turns` says.
- `Turns`: one run as functions of the agent's state (`Session`), and the lemmas about runs.
- `RunSpec`: the per-store loop described by the record of its visits: the expected log, the
  hints, and the context.
- `SqlGate`: the statement post-processing.
- `Planner`: plan extraction and selection.
- `Hints`: the ID-hint accumulator.
- `Store`: `src/utils.py`.
- `PyStr`, `PyDict`, `Json`, `Wrappers`: Python strings and insertion-ordered dicts, JSON values
  with Python's truth test, and Option/Result.

Where descriptions of the system and the code differ, the model follows the code:

- A failed query is never logged as "Error querying ...". The executor turns every error into the
  dict `{"error": ...}`, which is not a list, so the loop logs "No records found in ...". The
  handler at `src/orchestrator_groq.py:168-169` can never be reached (`RunSpec.NoEntryStartsWithError`).
- The sentinel statement starts with `SELECT`. It therefore passes the gate, is executed, and its
  one row is logged as "Found 1 records" (`SqlGate.SentinelIsSelect`, `RunSpec.SentinelIsLoggedAsFound`).
- The schema header names the store's file, e.g. "Schema for DB_ShopCore.db:", not the store,
  because the constructor passes the path to `get_schema`.
- Taking the text after the first "```json" up to the next "```" is exact only when that "```"
  does not overlap a later "```json" (as in "````json");
  `Planner.ExtractFromJsonFence` states the exact condition.

## Model

| member | source | states |
|---|---|---|
| Orchestrator.ChatClient.Create | src/orchestrator_groq.py:39-40 | one call is recorded after the earlier ones, and its answer is the service's answer to that call at that position |
| Orchestrator.OmniAgent.constructor | src/orchestrator_groq.py:16-26 | a new agent is on the primary model with an empty thought log, and holds schemas for exactly the four known stores |
| Orchestrator.OmniAgent.CallLlm | src/orchestrator_groq.py:28-49 | the calls sent, the new model and the result are exactly those of `Turns.LlmTurn`; the model stays primary or fallback |
| Orchestrator.OmniAgent.GetSqlFromLlm | src/orchestrator_groq.py:51-88 | the calls, model and statement are exactly those of `Turns.SqlTurn`: the translation call for the store's schema and hint text, then the post-processed reply |
| Orchestrator.OmniAgent.Plan | src/orchestrator_groq.py:107-134 | the JSON-mode planner call and the store names read from its answer are exactly those of `Turns.PlanTurn` |
| Orchestrator.OmniAgent.RecordResult | src/orchestrator_groq.py:150-167 | the statement's result is what the executor returns for the store's file; the log gains the query entry and one outcome entry; the hints and context are updated as `Turns.Recorded` says |
| Orchestrator.OmniAgent.VisitStore | src/orchestrator_groq.py:145-167 | the state after one known store, and its hints and context or the error of the translation, are exactly those of `Turns.VisitTurn` |
| Orchestrator.OmniAgent.QueryStores | src/orchestrator_groq.py:138-169 | the state after the loop and the context or error it hands on are exactly those of `Turns.LoopRun` over the plan |
| Orchestrator.OmniAgent.RunQuery | src/orchestrator_groq.py:90-208 | the calls, model, thought log and returned answer with the log are exactly those of `Turns.RunTurn` |
| Orchestrator.LoadSchemas | src/orchestrator_groq.py:25 | the loop over the given store entries (at construction, the four stores) reads each entry's schema into a dict keyed by the store's name; the result is `Turns.LoadedSchemas` of those entries, or the error of the first that fails |
| Orchestrator.RunOmniQuery | src/orchestrator_groq.py:210-212 | a store whose schema cannot be read fails the query before any call is made; otherwise the result is one `Turns.RunTurn` from a fresh agent on the primary model with an empty log |
| Turns.ModelAfter | src/orchestrator_groq.py:42-44 | the model only moves from primary to fallback, never back, and it moves exactly when the first error contains "429" while on the primary model |
| Turns.LlmTurnExchange | src/orchestrator_groq.py:28-49 | one call makes one or two client calls: the first on the current model, and a second on the fallback model exactly when the retry is taken; it logs nothing and returns the last answer, so any other error, or the retry's error, propagates |
| Turns.ExchangeAsked | src/orchestrator_groq.py:30-46 | every call of one exchange carries the same messages and output mode, and the exchange only appends calls |
| Turns.SqlTurnReply | src/orchestrator_groq.py:77-88 | a translation's statement is the last reply post-processed, so it is the sentinel or starts with "select" in any case; a failed translation hands on the raised error |
| Turns.PlanOutcome | src/orchestrator_groq.py:107-134 | store names come only from a successful planner answer, through the selected plan; conversely a call error propagates, an unbound plan fails with the unbound-plan error, and a bound plan gives exactly its names or Python's join error for it |
| Turns.ParsedListIsPlan | src/orchestrator_groq.py:121-134 | a parsed list is the plan: its strings are the store names in order, or the run fails with the join error |
| Turns.ParsedScalarLeavesPlanUnbound | src/orchestrator_groq.py:121-134 | a parsed scalar binds no plan, so the run fails with the unbound-plan error |
| Turns.ParsedDictBindsPlan | src/orchestrator_groq.py:123-134 | a parsed dict always binds a plan, its "plan" value or one of its own list values, and the outcome is that plan's names or its join error |
| Turns.UnparsablePlanUsesDefault | src/orchestrator_groq.py:107-132 | when the planner answers and `json.loads` rejects the extracted text, the plan is exactly the four stores in their fixed order |
| Turns.UnparsablePlanRunsDefault | src/orchestrator_groq.py:107-141 | such a run logs "Planner decided on: " and the four stores first, and then runs the loop and the synthesis over the four stores, all of them known |
| Turns.UnknownIsSkipped | src/orchestrator_groq.py:142 | a plan entry that is not a known store changes nothing: no call, no log entry, no hint |
| Turns.FailureEndsLoop | src/orchestrator_groq.py:148 | once a translation fails, the later plan entries change nothing |
| Turns.LoopRunCalls | src/orchestrator_groq.py:141-148 | the calls of the loop split into one group per visit, each asking for its store with the hint text current at that visit and answered last by that visit's reply; the calls only grow and the model never returns to primary |
| Turns.LoopRunStores | src/orchestrator_groq.py:141-142 | a completed loop visits exactly the known plan entries, in plan order, repeats included; a stopped loop visits a proper prefix of them |
| Turns.LoopRunLog | src/orchestrator_groq.py:150-167 | the loop appends to the log exactly the two entries of each visit, in visit order |
| Turns.LoopRunHints | src/orchestrator_groq.py:138-165 | the hints are those gathered from all records of the visits so far, the context maps each visited store to its last result, and each translation was given the hint text of the hints before it |
| Turns.LoopRunExecuted | src/orchestrator_groq.py:148-154 | every visit's statement is its reply post-processed, and its result is the executor's answer to that statement |
| Turns.VisitTurnFailure | src/orchestrator_groq.py:148 | a failed translation records no visit and keeps the hints; its calls all asked for the store, and the last one raised the error handed on |
| Turns.LoopRunFailure | src/orchestrator_groq.py:141-148 | a loop that stops did so at the next known plan entry after its visits, whose translation calls raised the error it hands on |
| Turns.LoopRunEntries | src/orchestrator_groq.py:141-167 | a completed loop keeps the earlier log and adds, for the j-th known plan entry, "Querying <store> with SQL: <statement>" and then its one outcome entry, and nothing else (`RunSpec.LogsVisits`) |
| Turns.FinishFacts | src/orchestrator_groq.py:204-208 | the synthesis step logs nothing; a loop error is handed on with no call; an answer is the reply to a last call that asked for the gathered context, returned with the whole log |
| Turns.RunTurnGrows | src/orchestrator_groq.py:107-208 | a run only appends to the log and the calls and never returns to the primary model; a failed plan step logs nothing and hands on its error; otherwise the first entry of the run is "Planner decided on: " and the plan joined with ", " |
| Turns.AfterPlanGrows | src/orchestrator_groq.py:138-208 | the loop and the synthesis only append to the log and the calls and never return to the primary model |
| Turns.RunTurnCompletes | src/orchestrator_groq.py:134-208 | a run that answers logged the plan entry and then exactly the loop's entries for the known plan entries, and returns that log with the answer to a synthesis call over the context of the visits |
| Turns.LogGrowsAcrossRuns | src/orchestrator_groq.py:90-208 | two runs on one agent keep the first run's log and calls as a prefix: the log is never reset |
| Turns.LoadedSchemasSucceeds | src/orchestrator_groq.py:25 | the schemas load exactly when every store's schema can be read |
| Turns.LoadedSchemasKeys | src/orchestrator_groq.py:25 | loaded schemas are stored under the stores' names, in their order |
| Turns.LoadedSchemasGet | src/orchestrator_groq.py:25 | each store name maps to the schema text of its own file |
| Turns.LoadedSchemasFirstError | src/orchestrator_groq.py:25 | a failed load reports the error of the first store whose schema cannot be read |
| Turns.LoadedSchemasFailurePropagates | src/orchestrator_groq.py:25 | once one store has failed, the later stores do not change the outcome |
| Turns.MissingFileIsFatal | src/orchestrator_groq.py:25 | a known store whose file is missing makes the agent's construction fail |
| RunSpec.DatabasesKeys | src/orchestrator_groq.py:19-24 | the known stores are the four names, in this order, each once |
| RunSpec.KnownCounts | src/orchestrator_groq.py:141-142 | the loop acts on each known store as often as the plan names it, and on no other name |
| RunSpec.KnownOfKnown | src/orchestrator_groq.py:142 | a plan of known stores only is acted on whole |
| RunSpec.KnownAppend | src/orchestrator_groq.py:141-142 | filtering two parts of a plan is filtering the whole |
| RunSpec.LoopLogEntries | src/orchestrator_groq.py:150-167 | the loop's log holds, for the j-th visit, its query entry at 2j and its outcome entry at 2j+1 |
| RunSpec.ErrorIsLoggedAsNoRecords | src/orchestrator_groq.py:159-167 | an error result is logged as "No records found" and yields no records for the hints |
| RunSpec.NoEntryStartsWithError | src/orchestrator_groq.py:168-169 | no loop entry starts with "Error querying " |
| RunSpec.SentinelIsLoggedAsFound | src/orchestrator_groq.py:159-160 | the sentinel, answered with its one row, is logged as one record found |
| RunSpec.LoopHintsStep | src/orchestrator_groq.py:162-165 | one more visit gathers its records on top of the earlier hints |
| RunSpec.LoopHintsWellFormed | src/orchestrator_groq.py:162-165 | the loop's hints only hold the seven ID names, each once, with truthy values |
| RunSpec.FirstSummaryIsNoIds | src/orchestrator_groq.py:139-145 | the first translation of a run is told "No IDs found yet." |
| RunSpec.NoRecordsNoHints | src/orchestrator_groq.py:159-167 | when no visit found a non-empty list, there are no hints and every translation is told "No IDs found yet." |
| RunSpec.LoopContextUnvisited | src/orchestrator_groq.py:157 | a store that was not visited has no context entry |
| RunSpec.LoopContextLast | src/orchestrator_groq.py:157 | a visited store's context entry is the result of its last visit |
| RunSpec.ExecutedExtend | src/orchestrator_groq.py:148-154 | a visit whose statement and result are those of the executor keeps the record of visits executed |
| SqlGate.PostProcess | src/orchestrator_groq.py:83-88 | the statement is the sentinel or the cleaned reply; it starts with "select" in any case, has no surrounding whitespace and contains no "```" |
| SqlGate.SentinelIsSelect | src/orchestrator_groq.py:87 | the sentinel starts with "select" in any case, is stripped and has no fence |
| SqlGate.GateKeepsExactlySelects | src/orchestrator_groq.py:86-88 | the cleaned reply is used exactly when it starts with "select" in any case, and the sentinel otherwise |
| SqlGate.WritesAreReplaced | src/orchestrator_groq.py:86-87 | a reply that starts with an insert, update, delete or drop keyword is replaced by the sentinel |
| SqlGate.RemoveAllFenceFree | src/orchestrator_groq.py:84 | removing every "```" never glues a new "```" together |
| SqlGate.JoinFenceFree | src/orchestrator_groq.py:84 | the text before the first "```", followed by a fence-free text, is fence-free |
| SqlGate.CleanHasNoFence | src/orchestrator_groq.py:84 | the cleaned reply contains no "```" |
| SqlGate.SliceHasNoFence | src/orchestrator_groq.py:84 | the final strip cannot create a fence |
| SqlGate.NoFenceNoSqlFence | src/orchestrator_groq.py:84 | a text without "```" has no "```sql" either |
| SqlGate.CleanFixesFenceFree | src/orchestrator_groq.py:83-84 | cleaning a stripped, fence-free text leaves it unchanged |
| SqlGate.PostProcessIdempotent | src/orchestrator_groq.py:83-88 | post-processing a statement the gate produced gives the same statement |
| SqlGate.NotBothPrefixes | src/orchestrator_groq.py:86 | a text starting with a write keyword does not start with "select" |
| SqlGate.FenceAt | src/orchestrator_groq.py:84 | "```" occurs exactly where three backticks follow one another |
| Planner.ExtractFromJsonFence | src/orchestrator_groq.py:114-115 | with "```json", parsing sees the stripped text after the first "```json" up to the next "```", or up to the next "```json" when a "```" overlaps it |
| Planner.ExtractFromPlainFence | src/orchestrator_groq.py:116-117 | with plain fences only, parsing sees the stripped text between the first and second "```" |
| Planner.ExtractWithoutFence | src/orchestrator_groq.py:114-119 | a reply without a fence is parsed as it is, after the strip |
| Planner.UpToJsonThenFence | src/orchestrator_groq.py:115 | cutting at "```json" and then at "```" is cutting at the first "```", unless it overlaps the "```json" |
| Planner.UpToTwice | src/orchestrator_groq.py:117 | cutting twice at the first separator is cutting once |
| Planner.JsonFenceIsFence | src/orchestrator_groq.py:114-116 | every "```json" starts a "```" |
| Planner.FirstList | src/orchestrator_groq.py:126-129 | the result is the value of the first list-valued field in key order, or none when no field is a list |
| Planner.ChoosePlan | src/orchestrator_groq.py:121-129 | a list is the plan; a dict gives a truthy "plan" value, else its first list value, else the falsy "plan" value or []; a scalar leaves the plan unbound |
| Planner.PlanNames | src/orchestrator_groq.py:134 | a list of strings is joined and visited item by item; a list with a non-string, or a scalar other than a string, makes the join raise |
| Planner.DefaultPlanNames | src/orchestrator_groq.py:132 | the fallback plan names the four stores in their fixed order |
| Planner.UnparsableReplyUsesDefault | src/orchestrator_groq.py:130-132 | a reply `json.loads` rejects yields exactly ShopCore, ShipStream, PayGuard, CareDesk |
| Planner.DefaultPlanEntry | src/orchestrator_groq.py:132-134 | the fallback plan is logged as "Planner decided on: ShopCore, ShipStream, PayGuard, CareDesk" |
| Hints.UpdateHints | src/orchestrator_groq.py:162-165 | the nested loops over records and ID names compute `Hints.HintsAfter` |
| Hints.SummarySaysNoIdsExactlyWhenEmpty | src/orchestrator_groq.py:145 | the translation is told "No IDs found yet." exactly when no hint has been gathered, and the JSON of the hints otherwise |
| Hints.RecordHintsGet | src/orchestrator_groq.py:163-165 | after the first n ID names of one record, a name holds the record's value if it is among them and carried truthily, and its old hint otherwise |
| Hints.OneRecord | src/orchestrator_groq.py:163-165 | one record sets exactly the ID names it carries with truthy values and leaves every other hint alone |
| Hints.LastRecordStep | src/orchestrator_groq.py:162-165 | the last record overrides a name it carries, and leaves it as the earlier records set it otherwise |
| Hints.UncarriedKeepsHint | src/orchestrator_groq.py:162-165 | a name that is not an ID name, or that no record carries, keeps its earlier hint |
| Hints.LastWriteWins | src/orchestrator_groq.py:162-165 | an ID name holds the value of the last record that carries it |
| Hints.HintsAfterAppend | src/orchestrator_groq.py:139-165 | gathering over one store's records and then another's is gathering over both: hints carry over between stores |
| Hints.RecordHintsWellFormed | src/orchestrator_groq.py:163-165 | one record keeps the hints to ID names with truthy values, each once |
| Hints.HintsAfterWellFormed | src/orchestrator_groq.py:162-165 | hints only ever gain the seven ID names, with truthy values, each once |
| Hints.NoCarrierNoChange | src/orchestrator_groq.py:162-165 | records that carry no ID name leave the hints as they were |
| Hints.RecordUnchanged | src/orchestrator_groq.py:163-165 | a record that carries no ID name leaves the hints as they were |
| Store.GetDbConnection | src/utils.py:5-18 | a connection is opened exactly when the file is present; otherwise the error names the store and its path |
| Store.Zip | src/utils.py:32 | the pairs stop at the shorter of columns and values, and pair them by position |
| Store.RowsOf | src/utils.py:30-32 | one row dict per fetched row, in fetch order |
| Store.ExecuteSqlQuery | src/utils.py:20-37 | the loop over the fetched rows and the serialising give `Store.QueryResult` |
| Store.SerializeMeaning | src/utils.py:35-37 | serialising fails with the bytes error exactly when some value is a blob, and otherwise keeps every row object, in order |
| Store.QueryResultShape | src/utils.py:22-37 | the executor never raises: it returns a list of row objects or a one-key error object |
| Store.QueryErrors | src/utils.py:22-37 | a missing file, an engine error, no result set and a blob each give the error object with that exception's text |
| Store.QueryRecords | src/utils.py:27-35 | without a blob there is one row object per fetched row, in fetch order, built from the column names and that row's values |
| Store.RowJsonGet | src/utils.py:35 | looking a column up after serialising finds that column's value, serialised |
| Store.RowOfGet | src/utils.py:32 | a repeated column name holds the value of its last zipped position |
| Store.RowOfAbsent | src/utils.py:32 | a name that is not among the zipped columns is not a key of the row |
| Store.RowOfAbsentBlob | src/utils.py:32 | a row without blobs gives a row dict without blobs |
| Store.RowRoundTrip | src/utils.py:27-35 | with distinct column names and one value per column, a row object has exactly the columns as keys, in order, each holding its own value |
| Store.TableText | src/utils.py:49 | a table's text is its first column when that is text; anything else raises |
| Store.TableTexts | src/utils.py:48-49 | the texts of all tables in the order returned, or the error of the first table that has none |
| Store.TableTextsFailurePropagates | src/utils.py:48-49 | once one table fails, the later tables do not change the outcome |
| Store.TableLinesSnoc | src/utils.py:48-49 | one more table appends its text and a newline |
| Store.GetSchema | src/utils.py:39-52 | the result is `Store.SchemaFor`: a missing file or engine error is passed on, and otherwise the header and one line per table |
| Store.BuildSchema | src/utils.py:47-50 | the loop builds "Schema for <name>:\n" followed by each table's text and "\n", in order, or the first table's error |
| Store.SchemaLines | src/utils.py:47-49 | read back line by line, the schema is the header, one line per table in order, then the empty remainder |
| Store.LinesSplit | src/utils.py:48-49 | the table lines read back line by line are the table texts and the empty remainder |
| Json.ErrorObjectIsNotRecords | src/utils.py:37 | the error object is a one-key dict, so the loop never takes it for a list of records |
| PyDict.Get | src/orchestrator_groq.py:124 | a lookup finds nothing exactly when the key is absent |
| PyDict.Put | src/orchestrator_groq.py:157 | after assignment the key holds the new value and every other key keeps its value |
| PyDict.PutKeys | src/orchestrator_groq.py:165 | assignment keeps the key order and appends a new key at the end |
| PyDict.PutUnique | src/orchestrator_groq.py:165 | distinct keys stay distinct under assignment |
| PyDict.FromPairsGet | src/utils.py:32 | a key of `dict(pairs)` holds the value of the last pair with that key |
| PyDict.FromPairsAbsent | src/utils.py:32 | a key in no pair is not a key of `dict(pairs)` |
| PyDict.FromPairsKeys | src/utils.py:32 | with distinct keys, `dict(pairs)` keeps every key in the order given |
| PyDict.PutLastKeys | src/utils.py:32 | assigning the last key of a dict with distinct keys, on top of the others, gives that dict's keys in order |
| PyStr.Strip | src/orchestrator_groq.py:83 | the result is no longer than the input and has no leading or trailing whitespace |
| PyStr.StripBounds | src/orchestrator_groq.py:83 | stripping removes only whitespace, from both ends |
| PyStr.StripStripped | src/orchestrator_groq.py:84 | stripping a stripped text changes nothing |
| PyStr.Split | src/orchestrator_groq.py:115 | the first piece is the text before the first separator, there is one piece exactly when the separator is absent, and the second piece runs to the next separator |
| PyStr.RemoveAll | src/orchestrator_groq.py:84 | removing never lengthens the text, and leaves a text without the pattern unchanged |
| PyStr.IndexFrom | src/orchestrator_groq.py:114 | the index found is the first occurrence at or after the start, or there is none |
| PyStr.ContainsIff | src/orchestrator_groq.py:114 | `in` holds exactly when the pattern occurs somewhere |
| PyStr.Lower | src/orchestrator_groq.py:86 | lower-casing keeps the length and lowers each character |
| Orchestrator.OmniAgent.KnownStoreHasSchema | src/orchestrator_groq.py:53 | in a valid agent a known store always has a loaded schema, so `self.schemas[db_name]` never raises `KeyError` |
| Orchestrator.OmniAgent.RecordOutcome | src/orchestrator_groq.py:159-167 | the log gains exactly the store's outcome entry, and the hints are those gathered from the result's records |
| Orchestrator.OmniAgent.Answer | src/orchestrator_groq.py:171-208 | the synthesis step changes the calls, model and log, and returns, exactly as `Turns.Finish` says |
| Turns.LlmTurn | src/orchestrator_groq.py:28-49 | defines one call: the current model first, and one retry on the fallback model after a "429" on the primary model |
| Turns.SchemaText | src/orchestrator_groq.py:53 | defines the schema a translation is given: the store's loaded schema text |
| Turns.SqlTurn | src/orchestrator_groq.py:51-88 | defines one translation: the call with the store's schema and the hint text, then the post-processed reply |
| Turns.SqlTurnExchange | src/orchestrator_groq.py:51-88 | a translation makes one call exchange and logs nothing; its statement is the post-processed last reply, or the error of the last call |
| Turns.PlanTurn | src/orchestrator_groq.py:107-134 | defines the planner call in JSON mode and the store names read from its answer |
| Turns.Recorded | src/orchestrator_groq.py:150-167 | defines one recorded statement: its query entry, its result from the executor, the outcome entry, the context entry and the hints |
| Turns.VisitTurn | src/orchestrator_groq.py:145-167 | defines one visit of a known store: the translation with the current hint text, then the record of its statement, or the error that ends the loop |
| Turns.VisitCalls | src/orchestrator_groq.py:141-148 | one visit keeps the loop's calls split into one group per visit, each asking for its own store with its hint text, and never returns to the primary model |
| Turns.VisitTurnLog | src/orchestrator_groq.py:150-167 | one visit either fails and keeps the log and visits, or records one visit and adds exactly its query entry and outcome entry |
| Turns.LoopRun | src/orchestrator_groq.py:138-169 | defines the loop over the plan: unknown names skipped, known ones visited in order, until a translation fails |
| Turns.Finish | src/orchestrator_groq.py:171-208 | defines the synthesis step: the loop's error, or the answer to a call over the gathered context, with the log |
| Turns.RunTurn | src/orchestrator_groq.py:90-208 | defines one run: the plan, its log entry, the loop and the synthesis |
| Turns.LoadedSchemas | src/orchestrator_groq.py:25 | defines the dict comprehension over the store entries: each store's schema, or the first error |
| Planner.ExtractPlanText | src/orchestrator_groq.py:114-119 | defines the text handed to `json.loads`: the inside of a "```json" or "```" fence, or the whole reply, stripped |
| Planner.PlanFromReply | src/orchestrator_groq.py:111-132 | defines the plan bound by a reply: the default plan when parsing fails, else the one chosen from the data, or none |
| Planner.PlanField | src/orchestrator_groq.py:124 | defines `data.get("plan", [])` |
| Planner.PlanEntry | src/orchestrator_groq.py:134 | defines the plan's log entry: "Planner decided on: " and the names joined with ", " |
| Planner.TypeName | src/orchestrator_groq.py:134 | defines the Python type name a join error reports for a JSON value |
| Planner.FirstNonString | src/orchestrator_groq.py:134 | the index is that of the first item that is not a string: it is one, and every earlier item is a string |
| Planner.JoinError | src/orchestrator_groq.py:134 | defines the text of the `TypeError` the join raises: the first non-string item with its index and type, or "can only join an iterable" |
| SqlGate.Clean | src/orchestrator_groq.py:83-84 | defines the cleaning: strip, remove "```sql" and "```", strip again |
| SqlGate.IsSelect | src/orchestrator_groq.py:86 | defines the gate: the lowered statement starts with "select" |
| Hints.ContextSummary | src/orchestrator_groq.py:145 | defines the hint text: "No IDs found yet." for no hints, the JSON of the hints otherwise |
| Hints.Carries | src/orchestrator_groq.py:164 | defines `key in record and record[key]` for a record dict |
| Hints.RecordHints | src/orchestrator_groq.py:163-165 | defines the inner loop over the first n ID names for one record |
| Hints.HintsAfter | src/orchestrator_groq.py:162-165 | defines the outer loop over the records |
| Hints.GatherIds | src/orchestrator_groq.py:163-165 | the loop over the ID names computes `Hints.RecordHints` for one record |
| Hints.GatherId | src/orchestrator_groq.py:164-165 | one ID name is copied from the record exactly when the record carries it truthily |
| RunSpec.Known | src/orchestrator_groq.py:141-142 | the plan entries the loop acts on are known stores only |
| RunSpec.QueryEntry | src/orchestrator_groq.py:150 | defines "Querying <store> with SQL: <statement>" |
| RunSpec.OutcomeEntry | src/orchestrator_groq.py:159-167 | defines the outcome entry: "Found <n> records in <store>." for a non-empty list, "No records found in <store>." otherwise |
| RunSpec.Records | src/orchestrator_groq.py:159-162 | defines the records the hint loop visits: the items of a non-empty list, none otherwise |
| RunSpec.LoopLog | src/orchestrator_groq.py:150-167 | the loop's entries number two per visit |
| RunSpec.LoopHints | src/orchestrator_groq.py:162-165 | defines the hints after the visits: gathered from all their records, in order |
| RunSpec.LoopContext | src/orchestrator_groq.py:157 | defines `cumulative_context` after the visits: each visit assigns its store's result |
| RunSpec.LoopLogLogsVisits | src/orchestrator_groq.py:150-167 | after any earlier log, the loop's entries are the query and outcome entries of each visit, two per visit, in visit order |
| Store.NotFoundMessage | src/utils.py:16 | defines "Database <name> not found at <path>" |
| Store.RowOf | src/utils.py:32 | defines `dict(zip(columns, row))` |
| Store.ValueJson | src/utils.py:35 | defines one SQLite value after `json.dumps` and `json.loads` |
| Store.RowJson | src/utils.py:35 | a row after the round trip has the same keys in the same order, each with its value round-tripped |
| Store.Serialize | src/utils.py:35-37 | defines `json.dumps(results)` read back: the row objects, or the error object a blob causes |
| Store.QueryResult | src/utils.py:20-37 | defines what the executor's answer reads back as: the rows, or the error object |
| Store.TableLines | src/utils.py:48-49 | defines each table text followed by a newline |
| Store.SchemaFor | src/utils.py:39-52 | defines the schema text: the header and the table lines, or the error that raised |
| PyStr.Join | src/orchestrator_groq.py:134 | defines `sep.join(parts)` |
| PyStr.NatToString | src/orchestrator_groq.py:160 | the decimal digits of a number, with no leading zero unless it is zero |

## Left out

- The prompt wording, the temperature and the message layout are not modelled. A `Request`
  carries only the inputs the prompts are built from: the question, the store, its schema text,
  the hint text and the gathered context.
- The Groq client, the API key, `load_dotenv` and every `print` are left out. The client is the
  `respond` oracle.
- A reply whose content is `None` is not modelled: every reply is a string.
- The user-name scan at `src/orchestrator_groq.py:174-184` is left out. Its result is never used.
- The returned thought log is a value copy here. In the source it is the agent's own list, so
  a caller that changes it changes the agent; that aliasing is not modelled.
- `Turns.SchemaText`: a store name without a schema gives "" rather than raising `KeyError`. In
  the agent this cannot happen: the translation is asked only for known stores, and a valid
  agent holds a schema for each of them (`Orchestrator.OmniAgent.KnownStoreHasSchema`).
- `PyStr.Lower`: lowers the ASCII letters only. The gate compares only the first six lowered
  characters against "select", and no other character lowers to one of those letters, so the
  check comes out the same; the model does not capture characters that lower to several.
- Floats are `real`s. NaN and the infinities, and how `json.dumps` writes them, are not modelled.
- `json.dumps` and `json.loads` are oracles. The executor's round trip through them is modelled
  value by value (`Store.ValueJson`), and a blob is the one value `json.dumps` rejects.
- Texts of some Python exceptions are modelled as fixed strings where the source does not choose
  them: the unbound `plan` error, the `table[0]` errors and the "no result set" error. The `join`
  error is Python's own text (`Planner.JoinError`).
- `json.loads` is an oracle. It may hand back a dict with a repeated key, which the real parser
  never does. The model does not rely on distinct keys there: a lookup finds the first occurrence.
- The computation of the data directory from the module's own path is left out. The data
  directory is a parameter of `StoreWorld`.
- Closing connections (`conn.close`) is left out: it has no effect on the results.
- Concurrency and re-entrancy are out of scope: the agent is used by one caller at a time.
