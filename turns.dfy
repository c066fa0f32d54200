/**
 * What one `run_query` of `src/orchestrator_groq.py` does, as functions of the agent's state and
 * of the chat service's answers: the rate-limited LLM call, the translation of one store's
 * request, the plan step, the per-store loop and the final synthesis. The methods of the
 * `OmniAgent` class are proved to change the agent's state exactly as these functions say; the
 * lemmas here describe what the functions do in the terms of the run: which calls were made,
 * which entries were logged, which hints each translation heard.
 */
module Turns {
  import opened Wrappers
  import opened PyStr
  import PyDict
  import opened Json
  import Store
  import Hints
  import SqlGate
  import Planner
  import opened RunSpec

  /** Lines 12-13. */
  const PrimaryModel: string := "llama-3.3-70b-versatile"
  const FallbackModel: string := "llama-3.1-8b-instant"

  /** What a call asks for; the prompt wording around these inputs is not modelled. */
  datatype Request =
    | PlanRequest(userQuery: string)
    | SqlRequest(userQuery: string, db: string, schema: string, contextSummary: string)
    | SynthesisRequest(userQuery: string, context: PyDict.Dict<Json>)

  /** One `chat.completions.create` call: the model, whether JSON output was requested, the request. */
  datatype Call = Call(model: string, jsonMode: bool, request: Request)

  /** The content of the first choice, or the text of the exception the client raised. */
  datatype Completion = Reply(content: string) | Raise(message: string)

  function AsResult(c: Completion): Result<string, string> {
    match c
    case Reply(t) => Success(t)
    case Raise(m) => Failure(m)
  }

  /**
   * What a run changes: the calls the client has received, the agent's `current_model` and its
   * `thought_log`.
   */
  datatype Session = Session(sent: seq<Call>, model: string, log: seq<string>)

  /**
   * What a run depends on and does not change: the chat service (`respond(k, call)` is its
   * answer to the k-th call it receives), the store files and engine, `json.loads` (`None` where
   * it raises), `json.dumps`, and the schema texts read at construction.
   */
  datatype Env = Env(respond: (nat, Call) -> Completion, world: Store.StoreWorld,
                     loads: string -> Option<Json>, dumps: Json -> string, schemas: PyDict.Dict<string>)

  // ---------------------------------------------------------------- _call_llm

  /** Line 42: the first call failed with a "429" while on the primary model. */
  predicate RetryTaken(model: string, first: Completion) {
    first.Raise? && Contains(first.message, "429") && model == PrimaryModel
  }

  /** The model after one `_call_llm`: the primary model gives way to the fallback for good. */
  function ModelAfter(model: string, first: Completion): (m: string)
    ensures m == model || (model == PrimaryModel && m == FallbackModel)
    ensures model == FallbackModel ==> m == FallbackModel
    ensures m != model <==> RetryTaken(model, first)
  {
    if RetryTaken(model, first) then FallbackModel else model
  }

  /**
   * The calls one `_call_llm` appends to `before`, starting on `model` and leaving `model'`: one
   * call on the current model, and a second one on the fallback model exactly when the retry is
   * taken.
   */
  ghost predicate LlmExchange(before: seq<Call>, after: seq<Call>, respond: (nat, Call) -> Completion,
                              model: string, model': string, jsonMode: bool, request: Request)
  {
    var n := |before|;
    && n < |after| <= n + 2 && after[..n] == before
    && after[n] == Call(model, jsonMode, request)
    && model' == ModelAfter(model, respond(n, after[n]))
    && (|after| == n + 2 <==> RetryTaken(model, respond(n, after[n])))
    && (|after| == n + 2 ==> after[n + 1] == Call(FallbackModel, jsonMode, request))
  }

  /** The answer to the last call sent, as `_call_llm` hands it on. */
  function LastAnswer(respond: (nat, Call) -> Completion, sent: seq<Call>): Result<string, string>
    requires |sent| > 0
  {
    AsResult(respond(|sent| - 1, sent[|sent| - 1]))
  }

  /** Lines 28-49: one call on the current model, and one retry on the fallback model after a "429". */
  function LlmTurn(respond: (nat, Call) -> Completion, s: Session, jsonMode: bool, request: Request)
    : (Session, Result<string, string>)
  {
    var call := Call(s.model, jsonMode, request);
    var first := respond(|s.sent|, call);
    var s1 := s.(sent := s.sent + [call]);
    if first.Reply? then (s1, Success(first.content))
    else if Contains(first.message, "429") && s.model == PrimaryModel then
      var retry := Call(FallbackModel, jsonMode, request);
      (s1.(sent := s1.sent + [retry], model := FallbackModel), AsResult(respond(|s1.sent|, retry)))
    else (s1, Failure(first.message))
  }

  /**
   * `_call_llm` makes one or two calls as `LlmExchange` describes, logs nothing, and returns the
   * last answer: the content, or the error of the retry, or any other first error, unchanged.
   */
  lemma LlmTurnExchange(respond: (nat, Call) -> Completion, s: Session, jsonMode: bool, request: Request)
    ensures var (s', r) := LlmTurn(respond, s, jsonMode, request);
      && LlmExchange(s.sent, s'.sent, respond, s.model, s'.model, jsonMode, request)
      && s'.log == s.log
      && r == LastAnswer(respond, s'.sent)
  {
    var call := Call(s.model, jsonMode, request);
    assert (s.sent + [call])[..|s.sent|] == s.sent;
    assert (s.sent + [call] + [Call(FallbackModel, jsonMode, request)])[..|s.sent|] == s.sent;
  }

  /** The calls `sent[from..to]` all carry `request` with `jsonMode`. */
  ghost predicate Asked(sent: seq<Call>, from: nat, to: nat, jsonMode: bool, request: Request) {
    from < to <= |sent| && forall k :: from <= k < to ==> sent[k].jsonMode == jsonMode && sent[k].request == request
  }

  lemma ExchangeAsked(before: seq<Call>, after: seq<Call>, respond: (nat, Call) -> Completion,
                      model: string, model': string, jsonMode: bool, request: Request)
    requires LlmExchange(before, after, respond, model, model', jsonMode, request)
    ensures Asked(after, |before|, |after|, jsonMode, request) && before <= after
  {
  }

  // ---------------------------------------------------------------- _get_sql_from_llm

  /** `self.schemas[db_name]` (line 53). */
  function SchemaText(schemas: PyDict.Dict<string>, db: string): string {
    PyDict.Get(schemas, db).GetOr("")
  }

  /** The content of the last answer, where it is one. */
  function LastContent(respond: (nat, Call) -> Completion, sent: seq<Call>): string {
    if |sent| > 0 && respond(|sent| - 1, sent[|sent| - 1]).Reply? then respond(|sent| - 1, sent[|sent| - 1]).content
    else ""
  }

  /** Lines 51-88: the translation call for one store, and its reply post-processed. */
  function SqlTurn(respond: (nat, Call) -> Completion, schemas: PyDict.Dict<string>, s: Session,
                   userQuery: string, db: string, summary: string): (Session, Result<string, string>)
  {
    var (s', reply) := LlmTurn(respond, s, false, SqlRequest(userQuery, db, SchemaText(schemas, db), summary));
    (s', match reply case Success(t) => Success(SqlGate.PostProcess(t)) case Failure(e) => Failure(e))
  }

  /**
   * A translation makes the calls of one `_call_llm` and logs nothing; its statement is the
   * last reply post-processed, and a failed translation returns the last error.
   */
  lemma SqlTurnExchange(respond: (nat, Call) -> Completion, schemas: PyDict.Dict<string>, s: Session,
                        userQuery: string, db: string, summary: string)
    ensures var (s', r) := SqlTurn(respond, schemas, s, userQuery, db, summary);
      && LlmExchange(s.sent, s'.sent, respond, s.model, s'.model, false,
                     SqlRequest(userQuery, db, SchemaText(schemas, db), summary))
      && s'.log == s.log
      && (r.Success? ==>
            && respond(|s'.sent| - 1, s'.sent[|s'.sent| - 1]) == Reply(LastContent(respond, s'.sent))
            && r.value == SqlGate.PostProcess(LastContent(respond, s'.sent)))
      && (r.Failure? ==> respond(|s'.sent| - 1, s'.sent[|s'.sent| - 1]) == Raise(r.error))
  {
    var request := SqlRequest(userQuery, db, SchemaText(schemas, db), summary);
    LlmTurnExchange(respond, s, false, request);
    var (s', reply) := LlmTurn(respond, s, false, request);
    var r := SqlTurn(respond, schemas, s, userQuery, db, summary).1;
    assert SqlTurn(respond, schemas, s, userQuery, db, summary).0 == s';
    if reply.Success? {
      assert reply.value == LastContent(respond, s'.sent);
      assert r == Success(SqlGate.PostProcess(reply.value));
    } else {
      assert r == Failure(reply.error);
    }
  }

  /**
   * The statement a translation returns is the sentinel or a fence-free, stripped text that
   * starts with "select", besides what `SqlTurnExchange` states.
   */
  lemma SqlTurnReply(respond: (nat, Call) -> Completion, schemas: PyDict.Dict<string>, s: Session,
                     userQuery: string, db: string, summary: string)
    ensures var (s', r) := SqlTurn(respond, schemas, s, userQuery, db, summary);
      && LlmExchange(s.sent, s'.sent, respond, s.model, s'.model, false,
                     SqlRequest(userQuery, db, SchemaText(schemas, db), summary))
      && s'.log == s.log
      && (r.Success? ==>
            && respond(|s'.sent| - 1, s'.sent[|s'.sent| - 1]) == Reply(LastContent(respond, s'.sent))
            && r.value == SqlGate.PostProcess(LastContent(respond, s'.sent))
            && (r.value == SqlGate.Sentinel || StartsWith(Lower(r.value), "select")))
      && (r.Failure? ==> respond(|s'.sent| - 1, s'.sent[|s'.sent| - 1]) == Raise(r.error))
  {
    SqlTurnExchange(respond, schemas, s, userQuery, db, summary);
    var s' := SqlTurn(respond, schemas, s, userQuery, db, summary).0;
    SqlGate.GateKeepsExactlySelects(LastContent(respond, s'.sent));
  }

  // ---------------------------------------------------------------- the plan

  /** Python 3.11's text for a read of the unbound `plan` at line 134. */
  const UnboundPlanError: string := "cannot access local variable 'plan' where it is not associated with a value"

  /** Lines 107-134: the store names the plan step yields from its call's answer. */
  function PlanOutcome(reply: Result<string, string>, loads: string -> Option<Json>): (r: Result<seq<string>, string>)
    ensures r.Success? ==>
      reply.Success? && exists p :: Planner.PlanFromReply(reply.value, loads) == Some(p) && Planner.PlanNames(p) == Some(r.value)
    ensures reply.Failure? ==> r == Failure(reply.error)
    ensures reply.Success? && Planner.PlanFromReply(reply.value, loads).None? ==> r == Failure(UnboundPlanError)
    ensures reply.Success? && Planner.PlanFromReply(reply.value, loads).Some? ==>
      var p := Planner.PlanFromReply(reply.value, loads).value;
      r == match Planner.PlanNames(p) case Some(names) => Success(names) case None => Failure(Planner.JoinError(p))
  {
    match reply
    case Failure(e) => Failure(e)
    case Success(t) =>
      match Planner.PlanFromReply(t, loads)
      case None => Failure(UnboundPlanError)
      case Some(p) =>
        match Planner.PlanNames(p)
        case None => Failure(Planner.JoinError(p))
        case Some(names) => Success(names)
  }

  /** A parsed JSON list is the plan: its strings are visited in order, or the join raises. */
  lemma ParsedListIsPlan(content: string, loads: string -> Option<Json>, items: seq<Json>)
    requires loads(Planner.ExtractPlanText(Strip(content))) == Some(JList(items))
    ensures var r := PlanOutcome(Success(content), loads);
      && (Planner.AllStrings(items) ==>
            r.Success? && |r.value| == |items| && forall i :: 0 <= i < |items| ==> r.value[i] == items[i].s)
      && (!Planner.AllStrings(items) ==> r == Failure(Planner.JoinError(JList(items))))
  {
  }

  /** A parsed JSON scalar leaves `plan` unbound, so the run fails at line 134. */
  lemma ParsedScalarLeavesPlanUnbound(content: string, loads: string -> Option<Json>, data: Json)
    requires loads(Planner.ExtractPlanText(Strip(content))) == Some(data)
    requires !data.JList? && !data.JObj?
    ensures PlanOutcome(Success(content), loads) == Failure(UnboundPlanError)
  {
  }

  /**
   * A parsed dict always binds `plan`, to its "plan" value or to one of its own list values;
   * the run then visits what that value yields, or the join raises.
   */
  lemma ParsedDictBindsPlan(content: string, loads: string -> Option<Json>, fields: PyDict.Dict<Json>)
    requires loads(Planner.ExtractPlanText(Strip(content))) == Some(JObj(fields))
    ensures var p := Planner.ChoosePlan(JObj(fields));
      && p.Some?
      && (p.value == Planner.PlanField(fields) || (p.value.JList? && exists i :: 0 <= i < |fields| && fields[i].1 == p.value))
      && PlanOutcome(Success(content), loads) ==
           match Planner.PlanNames(p.value) case Some(names) => Success(names) case None => Failure(Planner.JoinError(p.value))
  {
  }

  /** The planner call in JSON mode and the plan read from its answer. */
  function PlanTurn(respond: (nat, Call) -> Completion, loads: string -> Option<Json>, s: Session, userQuery: string)
    : (Session, Result<seq<string>, string>)
  {
    var (s', reply) := LlmTurn(respond, s, true, PlanRequest(userQuery));
    (s', PlanOutcome(reply, loads))
  }

  /** A planner answer that `json.loads` rejects makes the plan exactly the four stores in order. */
  lemma UnparsablePlanUsesDefault(respond: (nat, Call) -> Completion, loads: string -> Option<Json>,
                                  s: Session, userQuery: string)
    requires var reply := LlmTurn(respond, s, true, PlanRequest(userQuery)).1;
      reply.Success? && loads(Planner.ExtractPlanText(Strip(reply.value))).None?
    ensures PlanTurn(respond, loads, s, userQuery).1 == Success(Planner.DefaultPlan)
  {
    Planner.DefaultPlanNames();
  }

  // ---------------------------------------------------------------- the per-store loop

  /**
   * The loop's state: the session, `id_hints`, `cumulative_context`, the visits so far with
   * the call count before each of them and after the last, and the error that ended the loop.
   */
  datatype Loop = Loop(session: Session, hints: Hints.Hints, context: PyDict.Dict<Json>,
                       visits: seq<Visit>, marks: seq<nat>, failure: Option<string>)

  /** Lines 145-167 for one known store. A failed translation raises out of the loop. */
  function VisitTurn(env: Env, userQuery: string, l: Loop, db: string): Loop
    requires IsKnown(db)
  {
    var summary := Hints.ContextSummary(l.hints, env.dumps);
    var (s, sql) := SqlTurn(env.respond, env.schemas, l.session, userQuery, db, summary);
    match sql
    case Failure(e) => l.(session := s, failure := Some(e))
    case Success(stmt) => Recorded(env, l, db, summary, s, stmt)
  }

  /** Lines 150-167 once `stmt` is written: log it, run it, keep its result, gather its IDs. */
  function Recorded(env: Env, l: Loop, db: string, summary: string, s: Session, stmt: string): Loop
    requires IsKnown(db)
  {
    var result := ResultOf(env.world, db, stmt);
    var v := Visit(db, summary, LastContent(env.respond, s.sent), stmt, result);
    Loop(s.(log := s.log + [QueryEntry(db, stmt), OutcomeEntry(db, result)]),
         Hints.HintsAfter(l.hints, Records(result)), PyDict.Put(l.context, db, result),
         l.visits + [v], l.marks + [|s.sent|], None)
  }

  /** The loop state before any plan entry. */
  function LoopStart(s: Session): Loop {
    Loop(s, [], [], [], [|s.sent|], None)
  }

  /** Lines 138-169 over `plan`: an unknown name is skipped, a known one visited, until one fails. */
  function LoopRun(env: Env, userQuery: string, s: Session, plan: seq<string>): Loop
    decreases |plan|
  {
    if |plan| == 0 then LoopStart(s)
    else
      var l := LoopRun(env, userQuery, s, plan[..|plan| - 1]);
      var db := plan[|plan| - 1];
      if l.failure.Some? || !IsKnown(db) then l else VisitTurn(env, userQuery, l, db)
  }

  /** What the loop hands on: `cumulative_context`, or the exception that left it. */
  function LoopOutcome(l: Loop): Result<PyDict.Dict<Json>, string> {
    match l.failure
    case Some(e) => Failure(e)
    case None => Success(l.context)
  }

  /** A plan entry that is not a known store makes no call and logs nothing. */
  lemma UnknownIsSkipped(env: Env, userQuery: string, s: Session, plan: seq<string>, name: string)
    requires !IsKnown(name)
    ensures LoopRun(env, userQuery, s, plan + [name]) == LoopRun(env, userQuery, s, plan)
  {
    assert (plan + [name])[..|plan|] == plan;
  }

  /** Once a translation has failed, later plan entries change nothing. */
  lemma {:induction false} FailureEndsLoop(env: Env, userQuery: string, s: Session, plan: seq<string>, n: nat)
    requires n <= |plan|
    requires LoopRun(env, userQuery, s, plan[..n]).failure.Some?
    ensures LoopRun(env, userQuery, s, plan) == LoopRun(env, userQuery, s, plan[..n])
    decreases |plan| - n
  {
    if n < |plan| {
      var front := plan[..|plan| - 1];
      assert front[..n] == plan[..n];
      FailureEndsLoop(env, userQuery, s, front, n);
    } else {
      assert plan[..n] == plan;
    }
  }

  lemma ConcatAssociative<T>(a: seq<T>, b: seq<T>, c: seq<T>)
    ensures (a + b) + c == a + (b + c)
  {
  }

  lemma PrefixTransitive<T>(a: seq<T>, b: seq<T>, c: seq<T>)
    requires a <= b && b <= c
    ensures a <= c
  {
    assert c[..|a|] == b[..|b|][..|a|];
  }

  /**
   * The calls `sent[marks[j]..marks[j + 1]]` are the tries of the j-th visit's translation: they
   * all ask for its store with its hint text, and the last one was answered with its reply.
   */
  ghost predicate CallsMatch(sent: seq<Call>, respond: (nat, Call) -> Completion, userQuery: string,
                             schemas: PyDict.Dict<string>, visits: seq<Visit>, marks: seq<nat>)
  {
    && |marks| == |visits| + 1 && marks[|visits|] <= |sent|
    && forall j :: 0 <= j < |visits| ==>
      && Asked(sent, marks[j], marks[j + 1], false,
               SqlRequest(userQuery, visits[j].db, SchemaText(schemas, visits[j].db), visits[j].summary))
      && respond(marks[j + 1] - 1, sent[marks[j + 1] - 1]) == Reply(visits[j].reply)
  }

  /** More calls after the matched ones leave the match as it was. */
  lemma CallsMatchGrow(sent: seq<Call>, sent': seq<Call>, respond: (nat, Call) -> Completion, userQuery: string,
                       schemas: PyDict.Dict<string>, visits: seq<Visit>, marks: seq<nat>)
    requires CallsMatch(sent, respond, userQuery, schemas, visits, marks)
    requires sent <= sent'
    ensures CallsMatch(sent', respond, userQuery, schemas, visits, marks)
  {
    forall j | 0 <= j < |visits|
      ensures Asked(sent', marks[j], marks[j + 1], false, SqlRequest(userQuery, visits[j].db, SchemaText(schemas, visits[j].db), visits[j].summary))
      ensures respond(marks[j + 1] - 1, sent'[marks[j + 1] - 1]) == Reply(visits[j].reply)
    {
      assert forall k :: marks[j] <= k < marks[j + 1] ==> sent'[k] == sent[k];
    }
  }

  /** One more matched visit, whose tries are the calls after the last mark. */
  lemma CallsMatchExtend(sent: seq<Call>, sent': seq<Call>, respond: (nat, Call) -> Completion, userQuery: string,
                         schemas: PyDict.Dict<string>, visits: seq<Visit>, marks: seq<nat>, v: Visit)
    requires CallsMatch(sent, respond, userQuery, schemas, visits, marks)
    requires sent <= sent'
    requires Asked(sent', marks[|visits|], |sent'|, false, SqlRequest(userQuery, v.db, SchemaText(schemas, v.db), v.summary))
    requires respond(|sent'| - 1, sent'[|sent'| - 1]) == Reply(v.reply)
    ensures CallsMatch(sent', respond, userQuery, schemas, visits + [v], marks + [|sent'|])
  {
    var vs, ms := visits + [v], marks + [|sent'|];
    forall j | 0 <= j < |vs|
      ensures Asked(sent', ms[j], ms[j + 1], false, SqlRequest(userQuery, vs[j].db, SchemaText(schemas, vs[j].db), vs[j].summary))
      ensures respond(ms[j + 1] - 1, sent'[ms[j + 1] - 1]) == Reply(vs[j].reply)
    {
      if j < |visits| {
        assert vs[j] == visits[j] && ms[j] == marks[j] && ms[j + 1] == marks[j + 1];
        assert forall k :: marks[j] <= k < marks[j + 1] ==> sent'[k] == sent[k];
      }
    }
  }

  /**
   * The calls of the loop: earlier calls are kept, the j-th visit's translation tries are the
   * calls between its marks, and the primary model is never taken up again.
   */
  lemma {:induction false} LoopRunCalls(env: Env, userQuery: string, s: Session, plan: seq<string>)
    ensures var l := LoopRun(env, userQuery, s, plan);
      && CallsMatch(l.session.sent, env.respond, userQuery, env.schemas, l.visits, l.marks)
      && s.sent <= l.session.sent && l.marks[0] == |s.sent|
      && (l.failure.None? ==> l.marks[|l.visits|] == |l.session.sent|)
      && (l.session.model == s.model || l.session.model == FallbackModel)
    decreases |plan|
  {
    if |plan| > 0 {
      var front, db := plan[..|plan| - 1], plan[|plan| - 1];
      var l := LoopRun(env, userQuery, s, front);
      LoopRunCalls(env, userQuery, s, front);
      if l.failure.None? && IsKnown(db) {
        var summary := Hints.ContextSummary(l.hints, env.dumps);
        VisitTurnMade(env, userQuery, l, db);
        VisitCalls(env.respond, env.schemas, userQuery, s, l, db, summary, VisitTurn(env, userQuery, l, db));
      }
    }
  }

  /**
   * `l'` is `l` after one visit of `db` whose translation was told `summary`: its calls and
   * model are the translation's, and it records one more visit of `db`, with the reply, and one
   * more mark exactly when the translation succeeds.
   */
  ghost predicate VisitMade(respond: (nat, Call) -> Completion, schemas: PyDict.Dict<string>, userQuery: string,
                            l: Loop, db: string, summary: string, l': Loop)
  {
    var (s', sql) := SqlTurn(respond, schemas, l.session, userQuery, db, summary);
    && l'.session.sent == s'.sent && l'.session.model == s'.model
    && (sql.Failure? ==> l'.failure.Some? && l'.visits == l.visits && l'.marks == l.marks)
    && (sql.Success? ==>
          && l'.failure.None? && l'.marks == l.marks + [|s'.sent|]
          && |l'.visits| == |l.visits| + 1 && l'.visits == l.visits + [l'.visits[|l.visits|]]
          && l'.visits[|l.visits|].db == db && l'.visits[|l.visits|].summary == summary
          && l'.visits[|l.visits|].reply == LastContent(respond, s'.sent))
  }

  lemma VisitTurnMade(env: Env, userQuery: string, l: Loop, db: string)
    requires IsKnown(db)
    ensures VisitMade(env.respond, env.schemas, userQuery, l, db, Hints.ContextSummary(l.hints, env.dumps),
                      VisitTurn(env, userQuery, l, db))
  {
  }

  /** One visit extends the match of calls to visits by its own tries, or only adds calls. */
  lemma VisitCalls(respond: (nat, Call) -> Completion, schemas: PyDict.Dict<string>, userQuery: string,
                   s: Session, l: Loop, db: string, summary: string, l': Loop)
    requires CallsMatch(l.session.sent, respond, userQuery, schemas, l.visits, l.marks)
    requires s.sent <= l.session.sent && l.marks[0] == |s.sent| && l.marks[|l.visits|] == |l.session.sent|
    requires l.session.model == s.model || l.session.model == FallbackModel
    requires VisitMade(respond, schemas, userQuery, l, db, summary, l')
    ensures CallsMatch(l'.session.sent, respond, userQuery, schemas, l'.visits, l'.marks)
    ensures s.sent <= l'.session.sent && l'.marks[0] == |s.sent|
    ensures l'.failure.None? ==> l'.marks[|l'.visits|] == |l'.session.sent|
    ensures l'.session.model == s.model || l'.session.model == FallbackModel
  {
    var request := SqlRequest(userQuery, db, SchemaText(schemas, db), summary);
    SqlTurnExchange(respond, schemas, l.session, userQuery, db, summary);
    var (s', sql) := SqlTurn(respond, schemas, l.session, userQuery, db, summary);
    ExchangeAsked(l.session.sent, s'.sent, respond, l.session.model, s'.model, false, request);
    PrefixTransitive(s.sent, l.session.sent, s'.sent);
    if sql.Failure? {
      CallsMatchGrow(l.session.sent, s'.sent, respond, userQuery, schemas, l.visits, l.marks);
    } else {
      var v := l'.visits[|l.visits|];
      CallsMatchExtend(l.session.sent, s'.sent, respond, userQuery, schemas, l.visits, l.marks, v);
    }
  }

  /** The visits are the known plan entries in order, all of them unless one failed. */
  lemma {:induction false} LoopRunStores(env: Env, userQuery: string, s: Session, plan: seq<string>)
    ensures var l := LoopRun(env, userQuery, s, plan);
      && (l.failure.None? ==> Stores(l.visits) == Known(plan))
      && (l.failure.Some? ==> |l.visits| < |Known(plan)| && Stores(l.visits) == Known(plan)[..|l.visits|])
    decreases |plan|
  {
    if |plan| > 0 {
      var front, db := plan[..|plan| - 1], plan[|plan| - 1];
      var l := LoopRun(env, userQuery, s, front);
      LoopRunStores(env, userQuery, s, front);
      var kf := Known(front);
      assert Known(plan) == kf + if IsKnown(db) then [db] else [];
      assert Stores(l.visits) == Known(plan)[..|l.visits|] by {
        assert Known(plan)[..|kf|] == kf;
      }
      if l.failure.None? && IsKnown(db) {
        StoresStep(env, userQuery, l, db);
      }
    }
  }

  /** A visit adds its store to the visited ones, or, when its translation fails, none. */
  lemma StoresStep(env: Env, userQuery: string, l: Loop, db: string)
    requires IsKnown(db)
    ensures var l' := VisitTurn(env, userQuery, l, db);
      && (l'.failure.None? ==> Stores(l'.visits) == Stores(l.visits) + [db])
      && (l'.failure.Some? ==> l'.visits == l.visits)
  {
    var l' := VisitTurn(env, userQuery, l, db);
    if l'.failure.None? {
      StoresSnoc(l.visits, l'.visits[|l.visits|]);
    }
  }

  /** The loop's log entries are `LoopLog` of its visits, appended to the log it started with. */
  lemma {:induction false} LoopRunLog(env: Env, userQuery: string, s: Session, plan: seq<string>)
    ensures var l := LoopRun(env, userQuery, s, plan);
      l.session.log == s.log + LoopLog(l.visits)
    decreases |plan|
  {
    if |plan| > 0 {
      var front, db := plan[..|plan| - 1], plan[|plan| - 1];
      var l := LoopRun(env, userQuery, s, front);
      LoopRunLog(env, userQuery, s, front);
      if l.failure.None? && IsKnown(db) {
        VisitTurnLog(env, userQuery, l, db);
        var l' := VisitTurn(env, userQuery, l, db);
        if l'.failure.None? {
          var v := l'.visits[|l.visits|];
          var entries := [QueryEntry(v.db, v.sql), OutcomeEntry(v.db, v.result)];
          LoopLogSnoc(l.visits, v);
          ConcatAssociative(s.log, LoopLog(l.visits), entries);
        }
      }
    }
  }

  /** A visit that fails logs nothing; one that succeeds records one visit and logs its two entries. */
  lemma VisitTurnLog(env: Env, userQuery: string, l: Loop, db: string)
    requires IsKnown(db)
    ensures var l' := VisitTurn(env, userQuery, l, db);
      && (l'.failure.Some? ==> l'.session.log == l.session.log && l'.visits == l.visits)
      && (l'.failure.None? ==>
            && |l'.visits| == |l.visits| + 1 && l'.visits == l.visits + [l'.visits[|l.visits|]]
            && l'.session.log == l.session.log + [QueryEntry(db, l'.visits[|l.visits|].sql),
                                                  OutcomeEntry(db, l'.visits[|l.visits|].result)])
  {
    var summary := Hints.ContextSummary(l.hints, env.dumps);
    SqlTurnExchange(env.respond, env.schemas, l.session, userQuery, db, summary);
  }

  /**
   * The hints and the context are those gathered from the visits, and each translation heard
   * the hint text of the hints gathered before it.
   */
  lemma {:induction false} LoopRunHints(env: Env, userQuery: string, s: Session, plan: seq<string>)
    ensures var l := LoopRun(env, userQuery, s, plan);
      && l.hints == LoopHints(l.visits) && l.context == LoopContext(l.visits)
      && Hinted(env.dumps, l.visits)
    decreases |plan|
  {
    if |plan| > 0 {
      var front, db := plan[..|plan| - 1], plan[|plan| - 1];
      var l := LoopRun(env, userQuery, s, front);
      LoopRunHints(env, userQuery, s, front);
      if l.failure.None? && IsKnown(db) {
        HintsStep(env, userQuery, l, db);
      }
    }
  }

  /** A visit keeps the hints, the context and the hint texts in step with the visits. */
  lemma HintsStep(env: Env, userQuery: string, l: Loop, db: string)
    requires IsKnown(db)
    requires l.hints == LoopHints(l.visits) && l.context == LoopContext(l.visits)
    requires Hinted(env.dumps, l.visits)
    ensures var l' := VisitTurn(env, userQuery, l, db);
      && l'.hints == LoopHints(l'.visits) && l'.context == LoopContext(l'.visits)
      && Hinted(env.dumps, l'.visits)
  {
    var l' := VisitTurn(env, userQuery, l, db);
    if l'.failure.None? {
      var v := l'.visits[|l.visits|];
      assert l'.visits == l.visits + [v];
      LoopHintsStep(l.visits, v);
      HintedExtend(env.dumps, l.visits, v);
      assert (l.visits + [v])[..|l.visits|] == l.visits;
    }
  }

  /** Each visit ran the post-processed reply of its translation and kept the executor's result. */
  lemma {:induction false} LoopRunExecuted(env: Env, userQuery: string, s: Session, plan: seq<string>)
    ensures Executed(env.world, LoopRun(env, userQuery, s, plan).visits)
    decreases |plan|
  {
    if |plan| > 0 {
      var front, db := plan[..|plan| - 1], plan[|plan| - 1];
      var l := LoopRun(env, userQuery, s, front);
      LoopRunExecuted(env, userQuery, s, front);
      if l.failure.None? && IsKnown(db) {
        var summary := Hints.ContextSummary(l.hints, env.dumps);
        SqlTurnReply(env.respond, env.schemas, l.session, userQuery, db, summary);
        var l' := VisitTurn(env, userQuery, l, db);
        if l'.failure.None? {
          ExecutedExtend(env.world, l.visits, l'.visits[|l.visits|]);
          assert l'.visits == l.visits + [l'.visits[|l.visits|]];
        }
      }
    }
  }

  /**
   * A visit whose translation fails keeps the visits, marks and hints, and its tries are the
   * calls it added, the last of which raised the error.
   */
  lemma VisitTurnFailure(env: Env, userQuery: string, l: Loop, db: string)
    requires IsKnown(db)
    requires VisitTurn(env, userQuery, l, db).failure.Some?
    ensures var l' := VisitTurn(env, userQuery, l, db);
      && l'.visits == l.visits && l'.marks == l.marks && l'.hints == l.hints
      && Asked(l'.session.sent, |l.session.sent|, |l'.session.sent|, false,
               SqlRequest(userQuery, db, SchemaText(env.schemas, db), Hints.ContextSummary(l.hints, env.dumps)))
      && env.respond(|l'.session.sent| - 1, l'.session.sent[|l'.session.sent| - 1]) == Raise(l'.failure.value)
  {
    var summary := Hints.ContextSummary(l.hints, env.dumps);
    SqlTurnReply(env.respond, env.schemas, l.session, userQuery, db, summary);
    var (s', _) := SqlTurn(env.respond, env.schemas, l.session, userQuery, db, summary);
    ExchangeAsked(l.session.sent, s'.sent, env.respond, l.session.model, s'.model, false,
                  SqlRequest(userQuery, db, SchemaText(env.schemas, db), summary));
  }

  /**
   * The loop `l`, meant to visit `stores`, stopped at the translation of the next one: its tries
   * are the calls after the last mark, they carry the hint text of the hints so far, and the
   * last one raised the error the loop hands on.
   */
  ghost predicate StoppedAtNext(env: Env, userQuery: string, stores: seq<string>, l: Loop) {
    && l.failure.Some? && |l.visits| < |stores| && |l.marks| == |l.visits| + 1
    && var db := stores[|l.visits|];
    && Asked(l.session.sent, l.marks[|l.visits|], |l.session.sent|, false,
             SqlRequest(userQuery, db, SchemaText(env.schemas, db), Hints.ContextSummary(l.hints, env.dumps)))
    && env.respond(|l.session.sent| - 1, l.session.sent[|l.session.sent| - 1]) == Raise(l.failure.value)
  }

  lemma StopCarried(env: Env, userQuery: string, stores: seq<string>, more: seq<string>, l: Loop)
    requires StoppedAtNext(env, userQuery, stores, l)
    ensures StoppedAtNext(env, userQuery, stores + more, l)
  {
    assert (stores + more)[|l.visits|] == stores[|l.visits|];
  }

  lemma StopNew(env: Env, userQuery: string, l: Loop, db: string)
    requires IsKnown(db) && l.failure.None?
    requires |l.marks| == |l.visits| + 1 && l.marks[|l.visits|] == |l.session.sent|
    requires VisitTurn(env, userQuery, l, db).failure.Some?
    ensures StoppedAtNext(env, userQuery, Stores(l.visits) + [db], VisitTurn(env, userQuery, l, db))
  {
    VisitTurnFailure(env, userQuery, l, db);
  }

  /** A loop that failed stopped at the translation of the next known store. */
  lemma {:induction false} LoopRunFailure(env: Env, userQuery: string, s: Session, plan: seq<string>)
    ensures LoopRun(env, userQuery, s, plan).failure.Some? ==>
      StoppedAtNext(env, userQuery, Known(plan), LoopRun(env, userQuery, s, plan))
    decreases |plan|
  {
    if |plan| > 0 {
      var front, db := plan[..|plan| - 1], plan[|plan| - 1];
      assert plan == front + [db];
      KnownAppend(front, [db]);
      var l := LoopRun(env, userQuery, s, front);
      if l.failure.Some? {
        LoopRunFailure(env, userQuery, s, front);
        StopCarried(env, userQuery, Known(front), Known([db]), l);
      } else if IsKnown(db) && VisitTurn(env, userQuery, l, db).failure.Some? {
        LoopRunStores(env, userQuery, s, front);
        LoopRunCalls(env, userQuery, s, front);
        StopNew(env, userQuery, l, db);
        assert Known([db]) == [db] by {
          assert [db][..0] == [];
        }
      }
    }
  }

  /**
   * The thought-log entries of the loop, read off the plan: for the j-th known entry, one
   * "Querying" entry with its statement, then "Found N records" for a non-empty list and "No
   * records found" for anything else, errors included.
   */
  lemma LoopRunEntries(env: Env, userQuery: string, s: Session, plan: seq<string>)
    ensures var l := LoopRun(env, userQuery, s, plan);
      l.failure.None? ==> LogsVisits(l.session.log, s.log, Known(plan), l.visits)
  {
    var l := LoopRun(env, userQuery, s, plan);
    LoopRunLog(env, userQuery, s, plan);
    LoopRunStores(env, userQuery, s, plan);
    LoopLogLogsVisits(s.log, l.visits);
  }

  // ---------------------------------------------------------------- run_query

  /** Lines 171-208 after the loop: the synthesis call with the gathered context, or the loop's error. */
  function Finish(env: Env, userQuery: string, l: Loop): (Session, Result<(string, seq<string>), string>) {
    match l.failure
    case Some(e) => (l.session, Failure(e))
    case None =>
      var (s, answer) := LlmTurn(env.respond, l.session, false, SynthesisRequest(userQuery, l.context));
      (s, match answer case Success(a) => Success((a, s.log)) case Failure(e) => Failure(e))
  }

  /** Lines 90-208: plan, log the plan, visit the stores, and ask for the answer. */
  function RunTurn(env: Env, userQuery: string, s: Session): (Session, Result<(string, seq<string>), string>) {
    var (s1, plan) := PlanTurn(env.respond, env.loads, s, userQuery);
    match plan
    case Failure(e) => (s1, Failure(e))
    case Success(names) => Finish(env, userQuery, LoopRun(env, userQuery, s1.(log := s1.log + [Planner.PlanEntry(names)]), names))
  }

  /**
   * The synthesis step logs nothing and keeps every call; it answers with the reply to one
   * more exchange asking for the gathered context, together with the log.
   */
  lemma FinishFacts(env: Env, userQuery: string, l: Loop)
    ensures var (s', r) := Finish(env, userQuery, l);
      && s'.log == l.session.log && l.session.sent <= s'.sent
      && (s'.model == l.session.model || s'.model == FallbackModel)
      && (l.failure.Some? ==> s' == l.session && r == Failure(l.failure.value))
      && (l.failure.None? ==> |s'.sent| > |l.session.sent|)
      && (r.Success? ==>
            && l.failure.None? && r.value.1 == s'.log && |s'.sent| > 0
            && s'.sent[|s'.sent| - 1].request == SynthesisRequest(userQuery, l.context)
            && Success(r.value.0) == LastAnswer(env.respond, s'.sent))
  {
    if l.failure.None? {
      var request := SynthesisRequest(userQuery, l.context);
      LlmTurnExchange(env.respond, l.session, false, request);
      var (s3, _) := LlmTurn(env.respond, l.session, false, request);
      ExchangeAsked(l.session.sent, s3.sent, env.respond, l.session.model, s3.model, false, request);
    }
  }

  /**
   * A run only appends to the log and to the calls and never returns to the primary model;
   * once it has a plan, its first entry is the plan joined with ", ", and a failed plan step
   * logs nothing and hands on its error.
   */
  lemma RunTurnGrows(env: Env, userQuery: string, s: Session)
    ensures var (s', r) := RunTurn(env, userQuery, s);
      && s.log <= s'.log && s.sent < s'.sent
      && (s'.model == s.model || s'.model == FallbackModel)
      && var plan := PlanTurn(env.respond, env.loads, s, userQuery).1;
      && (plan.Failure? ==> s'.log == s.log && r == Failure(plan.error))
      && (plan.Success? ==> |s'.log| > |s.log| && s'.log[|s.log|] == Planner.PlanEntry(plan.value))
  {
    var (s1, plan) := PlanTurn(env.respond, env.loads, s, userQuery);
    LlmTurnExchange(env.respond, s, true, PlanRequest(userQuery));
    if plan.Success? {
      var s2 := s1.(log := s1.log + [Planner.PlanEntry(plan.value)]);
      AfterPlanGrows(env, userQuery, s2, plan.value);
      PrefixTransitive(s.sent, s1.sent, RunTurn(env, userQuery, s).0.sent);
      assert s2.log[..|s.log|] == s.log;
      PrefixTransitive(s.log, s2.log, RunTurn(env, userQuery, s).0.log);
    }
  }

  /** Visiting the stores and answering only append to the log and the calls. */
  lemma AfterPlanGrows(env: Env, userQuery: string, s: Session, plan: seq<string>)
    ensures var s' := Finish(env, userQuery, LoopRun(env, userQuery, s, plan)).0;
      && s.log <= s'.log && s.sent <= s'.sent
      && (s'.model == s.model || s'.model == FallbackModel)
  {
    var l := LoopRun(env, userQuery, s, plan);
    LoopRunLog(env, userQuery, s, plan);
    LoopRunCalls(env, userQuery, s, plan);
    FinishFacts(env, userQuery, l);
    PrefixTransitive(s.sent, l.session.sent, Finish(env, userQuery, l).0.sent);
  }

  /**
   * A run that completes logged the plan entry and then exactly the loop's entries for the
   * known stores of the plan, and returns that log with the answer to the synthesis call, which
   * was asked for with the context the loop gathered from its visits.
   */
  lemma RunTurnCompletes(env: Env, userQuery: string, s: Session)
    ensures var (s', r) := RunTurn(env, userQuery, s);
      var (s1, plan) := PlanTurn(env.respond, env.loads, s, userQuery);
      r.Success? ==>
        && plan.Success?
        && var l := LoopRun(env, userQuery, s1.(log := s1.log + [Planner.PlanEntry(plan.value)]), plan.value);
        && Stores(l.visits) == Known(plan.value)
        && s'.log == s.log + [Planner.PlanEntry(plan.value)] + LoopLog(l.visits)
        && r.value.1 == s'.log
        && l.context == LoopContext(l.visits)
        && |s'.sent| > 0
        && s'.sent[|s'.sent| - 1].request == SynthesisRequest(userQuery, l.context)
        && Success(r.value.0) == LastAnswer(env.respond, s'.sent)
  {
    var (s1, plan) := PlanTurn(env.respond, env.loads, s, userQuery);
    LlmTurnExchange(env.respond, s, true, PlanRequest(userQuery));
    if plan.Success? {
      var s2 := s1.(log := s1.log + [Planner.PlanEntry(plan.value)]);
      var l := LoopRun(env, userQuery, s2, plan.value);
      assert RunTurn(env, userQuery, s) == Finish(env, userQuery, l);
      LoopRunLog(env, userQuery, s2, plan.value);
      LoopRunStores(env, userQuery, s2, plan.value);
      LoopRunHints(env, userQuery, s2, plan.value);
      FinishFacts(env, userQuery, l);
    }
  }

  /**
   * A run whose planner answer `json.loads` rejects logs the four stores in order as its plan
   * (`Planner.DefaultPlanEntry` spells that entry out) and then visits exactly those four
   * stores, in that order.
   */
  lemma UnparsablePlanRunsDefault(env: Env, userQuery: string, s: Session)
    requires var reply := LlmTurn(env.respond, s, true, PlanRequest(userQuery)).1;
      reply.Success? && env.loads(Planner.ExtractPlanText(Strip(reply.value))).None?
    ensures var (s', r) := RunTurn(env, userQuery, s);
      var s1 := PlanTurn(env.respond, env.loads, s, userQuery).0;
      && (s', r) == Finish(env, userQuery,
                           LoopRun(env, userQuery, s1.(log := s1.log + [Planner.PlanEntry(Planner.DefaultPlan)]), Planner.DefaultPlan))
      && Known(Planner.DefaultPlan) == Planner.DefaultPlan
      && |s'.log| > |s.log| && s'.log[|s.log|] == Planner.PlanEntry(Planner.DefaultPlan)
  {
    var (s1, plan) := PlanTurn(env.respond, env.loads, s, userQuery);
    UnparsablePlanUsesDefault(env.respond, env.loads, s, userQuery);
    var s2 := s1.(log := s1.log + [Planner.PlanEntry(Planner.DefaultPlan)]);
    assert RunTurn(env, userQuery, s) == Finish(env, userQuery, LoopRun(env, userQuery, s2, Planner.DefaultPlan));
    RunTurnGrows(env, userQuery, s);
    DatabasesKeys();
    KnownOfKnown(Planner.DefaultPlan);
  }

  /**
   * Two runs on one agent: the second appends to the log the first returned, and neither
   * removes a call.
   */
  lemma LogGrowsAcrossRuns(env: Env, q1: string, q2: string, s: Session)
    ensures var (s1, _) := RunTurn(env, q1, s);
      var (s2, _) := RunTurn(env, q2, s1);
      s.log <= s1.log <= s2.log && s.sent < s1.sent < s2.sent
  {
    RunTurnGrows(env, q1, s);
    RunTurnGrows(env, q2, RunTurn(env, q1, s).0);
    PrefixTransitive(s.log, RunTurn(env, q1, s).0.log, RunTurn(env, q2, RunTurn(env, q1, s).0).0.log);
  }

  // ---------------------------------------------------------------- __init__

  /**
   * Line 25: `{db: get_schema(path) for db, path in self.databases.items()}`, or the error of
   * the first entry whose schema cannot be read.
   */
  function LoadedSchemas(world: Store.StoreWorld, entries: PyDict.Dict<string>): Result<PyDict.Dict<string>, string>
    decreases |entries|
  {
    if |entries| == 0 then Success([])
    else
      var last := entries[|entries| - 1];
      match LoadedSchemas(world, entries[..|entries| - 1])
      case Failure(e) => Failure(e)
      case Success(d) =>
        match Store.SchemaFor(world, last.1)
        case Failure(e) => Failure(e)
        case Success(t) => Success(PyDict.Put(d, last.0, t))
  }

  /** The schemas load exactly when every entry's schema can be read. */
  lemma {:induction false} LoadedSchemasSucceeds(world: Store.StoreWorld, entries: PyDict.Dict<string>)
    ensures LoadedSchemas(world, entries).Success? <==>
      forall i :: 0 <= i < |entries| ==> Store.SchemaFor(world, entries[i].1).Success?
    decreases |entries|
  {
    if |entries| > 0 {
      var n := |entries| - 1;
      var front, last := entries[..n], entries[n];
      LoadedSchemasSucceeds(world, front);
      var r := LoadedSchemas(world, front);
      if r.Success? && Store.SchemaFor(world, last.1).Success? {
        forall i | 0 <= i < |entries| ensures Store.SchemaFor(world, entries[i].1).Success? {
          if i < n {
            assert entries[i] == front[i];
          }
        }
      } else if r.Failure? {
        var i :| 0 <= i < n && Store.SchemaFor(world, front[i].1).Failure?;
        assert entries[i] == front[i];
      }
    }
  }

  /** Loaded schemas are stored under the entries' names, in their order. */
  lemma {:induction false} LoadedSchemasKeys(world: Store.StoreWorld, entries: PyDict.Dict<string>)
    requires PyDict.UniqueKeys(entries)
    ensures var r := LoadedSchemas(world, entries);
      r.Success? ==> PyDict.Keys(r.value) == PyDict.Keys(entries)
    decreases |entries|
  {
    if |entries| > 0 {
      var n := |entries| - 1;
      var front, last := entries[..n], entries[n];
      PyDict.UniqueFront(entries);
      LoadedSchemasKeys(world, front);
      var r := LoadedSchemas(world, front);
      var read := Store.SchemaFor(world, last.1);
      if r.Success? && read.Success? {
        PyDict.PutLastKeys(r.value, entries, read.value);
      }
    }
  }

  /** Each name of loaded schemas maps to the schema of its own file. */
  lemma {:induction false} LoadedSchemasGet(world: Store.StoreWorld, entries: PyDict.Dict<string>)
    requires PyDict.UniqueKeys(entries)
    ensures var r := LoadedSchemas(world, entries);
      r.Success? ==> forall i :: 0 <= i < |entries| ==>
        && Store.SchemaFor(world, entries[i].1).Success?
        && PyDict.Get(r.value, entries[i].0) == Some(Store.SchemaFor(world, entries[i].1).value)
    decreases |entries|
  {
    if |entries| > 0 {
      var n := |entries| - 1;
      var front, last := entries[..n], entries[n];
      assert PyDict.UniqueKeys(front);
      LoadedSchemasGet(world, front);
      LoadedSchemasSucceeds(world, entries);
      assert forall i :: 0 <= i < n ==> front[i] == entries[i];
    }
  }

  /** A failed load reports the error of the first entry whose schema cannot be read. */
  lemma {:induction false} LoadedSchemasFirstError(world: Store.StoreWorld, entries: PyDict.Dict<string>)
    ensures var r := LoadedSchemas(world, entries);
      r.Failure? ==> exists i :: 0 <= i < |entries| && Store.SchemaFor(world, entries[i].1) == Failure(r.error)
                                && forall i' :: 0 <= i' < i ==> Store.SchemaFor(world, entries[i'].1).Success?
    decreases |entries|
  {
    if |entries| > 0 {
      var n := |entries| - 1;
      var front, last := entries[..n], entries[n];
      LoadedSchemasFirstError(world, front);
      LoadedSchemasSucceeds(world, front);
      assert forall i :: 0 <= i < n ==> front[i] == entries[i];
      var r := LoadedSchemas(world, front);
      if r.Success? && Store.SchemaFor(world, last.1).Failure? {
        assert Store.SchemaFor(world, entries[n].1) == Failure(LoadedSchemas(world, entries).error);
      }
    }
  }

  /** Once an entry has failed, the later entries are not read. */
  lemma {:induction false} LoadedSchemasFailurePropagates(world: Store.StoreWorld, entries: PyDict.Dict<string>, n: nat)
    requires n <= |entries|
    requires LoadedSchemas(world, entries[..n]).Failure?
    ensures LoadedSchemas(world, entries) == LoadedSchemas(world, entries[..n])
    decreases |entries| - n
  {
    if n < |entries| {
      var front := entries[..|entries| - 1];
      assert front[..n] == entries[..n];
      LoadedSchemasFailurePropagates(world, front, n);
    } else {
      assert entries[..n] == entries;
    }
  }

  /** A store file missing from the data directory makes the agent's construction fail. */
  lemma MissingFileIsFatal(world: Store.StoreWorld, db: string)
    requires IsKnown(db)
    requires Store.DbPath(world, DbFile(db)) !in world.files
    ensures LoadedSchemas(world, Databases).Failure?
  {
    LoadedSchemasSucceeds(world, Databases);
    var i :| 0 <= i < |Databases| && Databases[i].0 == db;
    assert Store.SchemaFor(world, Databases[i].1) == Failure(Store.NotFoundMessage(world, DbFile(db)));
  }
}
