/**
 * `OmniAgent` of `src/orchestrator_groq.py`: the chat client as an oracle that answers the k-th
 * call it receives, the agent's mutable model and thought log, and its methods, each proved to
 * change the agent's state as the matching function of `Turns` says.
 */
module Orchestrator {
  import opened Wrappers
  import PyDict
  import opened Json
  import Store
  import Hints
  import SqlGate
  import Planner
  import opened RunSpec
  import opened Turns

  /** The chat service. `respond(k, call)` is what it answers to the k-th call it receives. */
  class ChatClient {
    const respond: (nat, Call) -> Completion
    var sent: seq<Call>

    constructor(respond: (nat, Call) -> Completion)
      ensures this.respond == respond && sent == []
    {
      this.respond := respond;
      sent := [];
    }

    /** `chat.completions.create(**kwargs)`, reduced to the first choice's content. */
    method Create(call: Call) returns (c: Completion)
      modifies this
      ensures sent == old(sent) + [call]
      ensures c == respond(|old(sent)|, call)
    {
      c := respond(|sent|, call);
      sent := sent + [call];
    }
  }

  class OmniAgent {
    const client: ChatClient
    const world: Store.StoreWorld
    /** `json.loads`, `None` where it raises. */
    const loads: string -> Option<Json>
    /** `json.dumps`. */
    const dumps: Json -> string
    const schemas: PyDict.Dict<string>
    var currentModel: string
    var thoughtLog: seq<string>

    ghost predicate Valid()
      reads this
    {
      (currentModel == PrimaryModel || currentModel == FallbackModel)
      && PyDict.Keys(schemas) == PyDict.Keys(Databases)
    }

    /** The calls sent, the current model and the thought log. */
    ghost function Snapshot(): Session
      reads this, client
    {
      Session(client.sent, currentModel, thoughtLog)
    }

    function Environment(): Env {
      Env(client.respond, world, loads, dumps, schemas)
    }

    /** `self.schemas[db_name]` (line 53) finds a schema for every known store. */
    lemma KnownStoreHasSchema(db: string)
      requires Valid() && IsKnown(db)
      ensures PyDict.Get(schemas, db) == Some(SchemaText(schemas, db))
    {
    }

    /** Lines 16-26, once the schemas are loaded. */
    constructor(client: ChatClient, world: Store.StoreWorld, loads: string -> Option<Json>,
                dumps: Json -> string, schemas: PyDict.Dict<string>)
      requires PyDict.Keys(schemas) == PyDict.Keys(Databases)
      ensures Valid()
      ensures this.client == client && this.world == world && this.loads == loads && this.dumps == dumps
      ensures this.schemas == schemas && currentModel == PrimaryModel && thoughtLog == []
    {
      this.client := client;
      this.world := world;
      this.loads := loads;
      this.dumps := dumps;
      this.schemas := schemas;
      currentModel := PrimaryModel;
      thoughtLog := [];
    }

    /** Lines 28-49. */
    method CallLlm(request: Request, jsonMode: bool) returns (r: Result<string, string>)
      requires Valid()
      modifies this`currentModel, client
      ensures Valid()
      ensures (Snapshot(), r) == LlmTurn(client.respond, old(Snapshot()), jsonMode, request)
    {
      var first := client.Create(Call(currentModel, jsonMode, request));
      if first.Reply? {
        return Success(first.content);
      }
      if PyStr.Contains(first.message, "429") && currentModel == PrimaryModel {
        currentModel := FallbackModel;
        var second := client.Create(Call(FallbackModel, jsonMode, request));
        r := AsResult(second);
      } else {
        r := Failure(first.message);
      }
    }

    /** Lines 51-88. */
    method GetSqlFromLlm(userQuery: string, db: string, contextSummary: string) returns (r: Result<string, string>)
      requires Valid()
      modifies this`currentModel, client
      ensures Valid()
      ensures (Snapshot(), r) == SqlTurn(client.respond, schemas, old(Snapshot()), userQuery, db, contextSummary)
    {
      var reply := CallLlm(SqlRequest(userQuery, db, SchemaText(schemas, db), contextSummary), false);
      if reply.Failure? {
        return Failure(reply.error);
      }
      r := Success(SqlGate.PostProcess(reply.value));
    }

    /** Lines 107-132 and the join of line 134. */
    method Plan(userQuery: string) returns (r: Result<seq<string>, string>)
      requires Valid()
      modifies this`currentModel, client
      ensures Valid()
      ensures (Snapshot(), r) == PlanTurn(client.respond, loads, old(Snapshot()), userQuery)
    {
      var reply := CallLlm(PlanRequest(userQuery), true);
      if reply.Failure? {
        return Failure(reply.error);
      }
      var plan := Planner.PlanFromReply(reply.value, loads);
      if plan.None? {
        return Failure(UnboundPlanError);
      }
      var names := Planner.PlanNames(plan.value);
      if names.None? {
        return Failure(Planner.JoinError(plan.value));
      }
      r := Success(names.value);
    }

    /**
     * Lines 150-167 once the statement is written: log it, run it, keep its result, gather its
     * IDs. The ghost parameters carry the loop's record of visits and call marks along.
     */
    method RecordResult(db: string, sql: string, hints: Hints.Hints, context: PyDict.Dict<Json>,
                        ghost summary: string, ghost visits: seq<Visit>, ghost marks: seq<nat>)
      returns (result: Json, hints': Hints.Hints, context': PyDict.Dict<Json>,
               ghost visits': seq<Visit>, ghost marks': seq<nat>)
      requires IsKnown(db)
      modifies this`thoughtLog
      ensures result == ResultOf(world, db, sql)
      ensures thoughtLog == old(thoughtLog) + [QueryEntry(db, sql), OutcomeEntry(db, result)]
      ensures hints' == Hints.HintsAfter(hints, Records(result)) && context' == PyDict.Put(context, db, result)
      ensures visits' == visits + [Visit(db, summary, LastContent(client.respond, client.sent), sql, result)]
      ensures marks' == marks + [|client.sent|]
      ensures Loop(Snapshot(), hints', context', visits', marks', None) ==
        Recorded(Environment(), Loop(old(Snapshot()), hints, context, visits, marks, None), db, summary, old(Snapshot()), sql)
    {
      thoughtLog := thoughtLog + [QueryEntry(db, sql)];
      result := Store.ExecuteSqlQuery(world, DbFile(db), sql);
      context' := PyDict.Put(context, db, result);
      hints' := RecordOutcome(db, result, hints);
      visits' := visits + [Visit(db, summary, LastContent(client.respond, client.sent), sql, result)];
      marks' := marks + [|client.sent|];
    }

    /** Lines 159-167: log how many records came back and gather the IDs of a non-empty list. */
    method RecordOutcome(db: string, result: Json, hints: Hints.Hints) returns (hints': Hints.Hints)
      modifies this`thoughtLog
      ensures thoughtLog == old(thoughtLog) + [OutcomeEntry(db, result)]
      ensures hints' == Hints.HintsAfter(hints, Records(result))
    {
      hints' := hints;
      if IsNonEmptyList(result) {
        thoughtLog := thoughtLog + [FoundEntry(db, |result.items|)];
        hints' := Hints.UpdateHints(hints, result.items);
      } else {
        thoughtLog := thoughtLog + [NoRecordsEntry(db)];
      }
    }

    /**
     * Lines 145-167 for one known store: write its statement, log it, run it, keep its result
     * and gather the IDs of its records.
     */
    method VisitStore(userQuery: string, db: string, hints: Hints.Hints, context: PyDict.Dict<Json>,
                      ghost visits: seq<Visit>, ghost marks: seq<nat>)
      returns (r: Result<(Hints.Hints, PyDict.Dict<Json>), string>, ghost visits': seq<Visit>, ghost marks': seq<nat>)
      requires Valid() && IsKnown(db)
      modifies this`currentModel, this`thoughtLog, client
      ensures Valid()
      ensures var l := VisitTurn(Environment(), userQuery, Loop(old(Snapshot()), hints, context, visits, marks, None), db);
        && Snapshot() == l.session && visits' == l.visits && marks' == l.marks
        && r == match l.failure case Some(e) => Failure(e) case None => Success((l.hints, l.context))
    {
      var summary := Hints.ContextSummary(hints, dumps);
      var sql := GetSqlFromLlm(userQuery, db, summary);
      if sql.Failure? {
        return Failure(sql.error), visits, marks;
      }
      var result, hints', context';
      result, hints', context', visits', marks' := RecordResult(db, sql.value, hints, context, summary, visits, marks);
      r := Success((hints', context'));
    }

    /** Lines 138-169: one turn per plan entry; an unknown name is skipped, a known one is visited. */
    method QueryStores(userQuery: string, plan: seq<string>) returns (r: Result<PyDict.Dict<Json>, string>)
      requires Valid()
      modifies this`currentModel, this`thoughtLog, client
      ensures Valid()
      ensures var l := LoopRun(Environment(), userQuery, old(Snapshot()), plan);
        Snapshot() == l.session && r == LoopOutcome(l)
    {
      var context: PyDict.Dict<Json> := [];
      var hints: Hints.Hints := [];
      ghost var visits: seq<Visit>, marks: seq<nat> := [], [|client.sent|];
      var i := 0;
      while i < |plan|
        invariant 0 <= i <= |plan| && Valid()
        invariant LoopRun(Environment(), userQuery, old(Snapshot()), plan[..i]) ==
          Loop(Snapshot(), hints, context, visits, marks, None)
      {
        var db := plan[i];
        assert plan[..i + 1][..i] == plan[..i];
        if db in PyDict.Keys(Databases) {
          var step;
          step, visits, marks := VisitStore(userQuery, db, hints, context, visits, marks);
          if step.Failure? {
            FailureEndsLoop(Environment(), userQuery, old(Snapshot()), plan, i + 1);
            return Failure(step.error);
          }
          hints, context := step.value.0, step.value.1;
        }
        i := i + 1;
      }
      assert plan[..i] == plan;
      r := Success(context);
    }

    /** Lines 90-208. The answer comes with the agent's whole thought log. */
    method RunQuery(userQuery: string) returns (r: Result<(string, seq<string>), string>)
      requires Valid()
      modifies this`currentModel, this`thoughtLog, client
      ensures Valid()
      ensures (Snapshot(), r) == RunTurn(Environment(), userQuery, old(Snapshot()))
    {
      var plan := Plan(userQuery);
      if plan.Failure? {
        return Failure(plan.error);
      }
      thoughtLog := thoughtLog + [Planner.PlanEntry(plan.value)];
      ghost var l := LoopRun(Environment(), userQuery, Snapshot(), plan.value);
      assert RunTurn(Environment(), userQuery, old(Snapshot())) == Finish(Environment(), userQuery, l);
      var context := QueryStores(userQuery, plan.value);
      r := Answer(userQuery, context, l);
    }

    /** Lines 171-208: the loop's error, or the synthesis call with the gathered context. */
    method Answer(userQuery: string, context: Result<PyDict.Dict<Json>, string>, ghost l: Loop)
      returns (r: Result<(string, seq<string>), string>)
      requires Valid() && Snapshot() == l.session && context == LoopOutcome(l)
      modifies this`currentModel, client
      ensures Valid()
      ensures (Snapshot(), r) == Finish(Environment(), userQuery, l)
    {
      if context.Failure? {
        return Failure(context.error);
      }
      var answer := CallLlm(SynthesisRequest(userQuery, context.value), false);
      if answer.Failure? {
        return Failure(answer.error);
      }
      r := Success((answer.value, thoughtLog));
    }
  }

  /**
   * Line 25, with the loop of the dict comprehension over `entries`, which the agent takes
   * from `Databases`.
   */
  method LoadSchemas(world: Store.StoreWorld, entries: PyDict.Dict<string>) returns (r: Result<PyDict.Dict<string>, string>)
    ensures r == LoadedSchemas(world, entries)
  {
    var schemas: PyDict.Dict<string> := [];
    var i := 0;
    while i < |entries|
      invariant 0 <= i <= |entries|
      invariant LoadedSchemas(world, entries[..i]) == Success(schemas)
    {
      var (db, path) := entries[i];
      var schema := Store.GetSchema(world, path);
      assert entries[..i + 1][..i] == entries[..i] && entries[..i + 1][i] == (db, path);
      if schema.Failure? {
        LoadedSchemasFailurePropagates(world, entries, i + 1);
        return Failure(schema.error);
      }
      schemas := PyDict.Put(schemas, db, schema.value);
      i := i + 1;
    }
    assert entries[..i] == entries;
    r := Success(schemas);
  }

  /**
   * Lines 210-212: a fresh agent on the primary model with an empty log, then one run. A store
   * whose schema cannot be read makes the construction fail before any call is made.
   */
  method RunOmniQuery(client: ChatClient, world: Store.StoreWorld, loads: string -> Option<Json>,
                      dumps: Json -> string, userQuery: string) returns (r: Result<(string, seq<string>), string>)
    modifies client
    ensures match LoadedSchemas(world, Databases)
      case Failure(e) => r == Failure(e) && client.sent == old(client.sent)
      case Success(schemas) =>
        var (s, run) := RunTurn(Env(client.respond, world, loads, dumps, schemas), userQuery,
                                Session(old(client.sent), PrimaryModel, []));
        client.sent == s.sent && r == run
  {
    var schemas := LoadSchemas(world, Databases);
    if schemas.Failure? {
      return Failure(schemas.error);
    }
    DatabasesKeys();
    LoadedSchemasKeys(world, Databases);
    var agent := new OmniAgent(client, world, loads, dumps, schemas.value);
    r := agent.RunQuery(userQuery);
  }
}
