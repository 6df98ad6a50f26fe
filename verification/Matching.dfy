/** One AI match run: the bounded retry loop, grounding, and the atomic two-table write. */
module Matching {
  import opened Prelude
  import opened Grounding
  import opened GroundingProofs

  // ---- asking the model ----

  datatype MatchError = MatchError(status: int, code: string)

  datatype ModelError =
    | GeminiError(code: string, status: int)
    | OllamaError(code: string, timedOut: bool)
    | Matched(error: MatchError)
    | Other

  /** `modelFailure`. */
  function ModelFailure(e: ModelError): MatchError {
    match e
    case GeminiError(code, status) =>
      if code == "GEMINI_API_KEY_MISSING" then MatchError(503, "CLOUD_MODEL_NOT_CONFIGURED")
      else if code == "GEMINI_TIMEOUT" then MatchError(504, "MODEL_TIMEOUT")
      else if code == "GEMINI_INVALID_JSON" || code == "GEMINI_EMPTY_RESPONSE"
        then MatchError(502, "MODEL_RESPONSE_INVALID")
      else MatchError(status, "MODEL_UNAVAILABLE")
    case OllamaError(_, timedOut) => if timedOut then MatchError(504, "MODEL_TIMEOUT")
      else MatchError(503, "MODEL_UNAVAILABLE")
    case Matched(error) => error
    case Other => MatchError(500, "MATCH_FAILED")
  }

  /** The error reported when the loop ends on this reply. */
  function FailureOf(reply: Reply): MatchError {
    if reply.Threw? then ModelFailure(reply.error) else MatchError(502, "MODEL_RESPONSE_INVALID")
  }

  predicate Malformed(e: ModelError) {
    (e.GeminiError? && (e.code == "GEMINI_INVALID_JSON" || e.code == "GEMINI_EMPTY_RESPONSE"))
    || (e.OllamaError? && e.code == "MODEL_OUTPUT_INVALID_JSON")
  }

  /** One attempt: an exception, or an answer that does or does not parse against the schema. */
  datatype Reply = Threw(error: ModelError) | OffSchema | Parsed(response: MatchResponse)

  datatype Result<T> = Ok(value: T) | Err(error: MatchError)

  /** A reply that another attempt may replace. */
  predicate Retryable(reply: Reply) {
    reply.OffSchema? || (reply.Threw? && Malformed(reply.error))
  }

  /** `configuredInteger`: `parsed` is the environment variable read as a number, if it is an integer. */
  function ConfiguredInteger(parsed: Option<int>, fallback: int, min: int, max: int): (r: int)
    requires min <= fallback <= max
    ensures min <= r <= max
    ensures parsed.None? ==> r == fallback
    ensures parsed.Some? && min <= parsed.value <= max ==> r == parsed.value
    ensures parsed.Some? && parsed.value < min ==> r == min
    ensures parsed.Some? && parsed.value > max ==> r == max
  {
    if parsed.None? then fallback else Max(min, Min(max, parsed.value))
  }

  /** `AI_MATCH_MALFORMED_RETRIES`: one by default, never more than two. */
  function MalformedRetries(configured: Option<int>): (n: nat)
    ensures n <= 2 && (configured.None? ==> n == 1)
    ensures configured.Some? ==> n == if configured.value < 0 then 0 else if configured.value > 2 then 2
        else configured.value
  {
    ConfiguredInteger(configured, 1, 0, 2)
  }

  /**
   * Asks until an answer parses, an error is not worth retrying, or the attempts run out. It succeeds
   * exactly when some attempt parses and every earlier one was retryable, and returns that answer.
   */
  method AskModel(model: nat -> Reply, retries: nat) returns (r: Result<MatchResponse>, calls: nat)
    ensures 1 <= calls <= retries + 1
    ensures forall i :: 0 <= i < calls - 1 ==> Retryable(model(i))
    ensures r.Ok? ==> model(calls - 1) == Parsed(r.value)
    ensures r.Err? ==> !model(calls - 1).Parsed? && (Retryable(model(calls - 1)) ==> calls == retries + 1)
    ensures r.Err? ==> r.error == FailureOf(model(calls - 1))
    ensures r.Ok? <==>
      exists k :: 0 <= k <= retries && model(k).Parsed? && forall i :: 0 <= i < k ==> Retryable(model(i))
  {
    calls := 0;
    for attempt := 0 to retries + 1
      invariant calls == attempt
      invariant forall i :: 0 <= i < attempt ==> Retryable(model(i))
      invariant attempt == retries + 1 ==> model(retries) == OffSchema
    {
      calls := calls + 1;
      var raw := model(attempt);
      match raw
      case Threw(error) =>
        if Malformed(error) && attempt < retries {
          continue;
        }
        return Err(ModelFailure(error)), calls;
      case Parsed(response) =>
        return Ok(response), calls;
      case OffSchema =>
    }
    return Err(MatchError(502, "MODEL_RESPONSE_INVALID")), calls;
  }

  // ---- the two tables ----

  const NOT_SAVED := MatchError(500, "MATCH_PERSISTENCE_FAILED")

  type UserId = string
  type JobId = string

  datatype MatchRow = MatchRow(userId: UserId, jobId: JobId, answer: MatchResponse, factsUsed: seq<string>,
      origin: string, createdAt: int)

  datatype StateRow = StateRow(applicationStatus: string, matchScore: Option<int>, eligibility: Option<Eligibility>,
      matchedAt: Option<int>)

  datatype Tables = Tables(results: seq<MatchRow>, states: map<(UserId, JobId), StateRow>)

  datatype Fact = Fact(id: string, kind: string, content: string, detail: Option<string>)

  function FactsOf(facts: seq<Fact>): Facts {
    Facts(
      set f | f in facts :: f.id,
      LastById(facts, (f: Fact) => f.content + " " + (if f.detail.Some? then f.detail.value else "")),
      LastById(facts, (f: Fact) => f.kind))
  }

  /** `new Map(facts.map(f => [f.id, value(f)]))`: a later entry replaces an earlier one. */
  function LastById(facts: seq<Fact>, value: Fact -> string): (m: map<string, string>)
    ensures forall id :: id in m <==> exists f :: f in facts && f.id == id
  {
    if facts == [] then map[]
    else
      assert facts == facts[..|facts| - 1] + [facts[|facts| - 1]];
      LastById(facts[..|facts| - 1], value)[facts[|facts| - 1].id := value(facts[|facts| - 1])]
  }

  function CitedIds(items: seq<SkillItem>): seq<string> {
    if items == [] then [] else items[0].factIds + CitedIds(items[1..])
  }

  /** The distinct fact ids behind the supported and confirmation lists. */
  function FactsUsed(grounded: MatchResponse): seq<string> {
    Dedupe(CitedIds(grounded.skillsSupported + grounded.skillsNeedConfirmation))
  }

  /**
   * One call of `runMatchForJob`, with everything the outside world decides: the job and profile reads,
   * the selected facts, the model's replies, and whether the transaction goes through.
   */
  datatype Request = Request(
    userId: UserId,
    jobId: JobId,
    jobFound: bool,
    usableDescription: bool,
    approvedFacts: nat,
    facts: seq<Fact>,
    model: nat -> Reply,
    origin: string,
    commits: bool,
    now: int
  )

  /** The first attempt that is not merely retryable, if it comes before the attempts run out. */
  function Answer(model: nat -> Reply, retries: nat, attempt: nat): Option<MatchResponse>
    decreases retries + 1 - attempt
  {
    if attempt > retries then None
    else match model(attempt)
      case Parsed(response) => Some(response)
      case _ => if Retryable(model(attempt)) then Answer(model, retries, attempt + 1) else None
  }

  lemma {:induction false} AnswerIsFirstParsed(model: nat -> Reply, retries: nat, attempt: nat, k: nat)
    requires attempt <= k <= retries && model(k).Parsed? && forall i :: attempt <= i < k ==> Retryable(model(i))
    ensures Answer(model, retries, attempt) == Some(model(k).response)
    decreases k - attempt
  {
    if attempt < k {
      AnswerIsFirstParsed(model, retries, attempt + 1, k);
    }
  }

  lemma {:induction false} AnswerComesFromAnAttempt(model: nat -> Reply, retries: nat, attempt: nat)
    requires Answer(model, retries, attempt).Some?
    ensures exists k ::
              attempt <= k <= retries && model(k).Parsed? && forall i :: attempt <= i < k ==> Retryable(model(i))
    decreases retries + 1 - attempt
  {
    if model(attempt).Parsed? {
      assert attempt <= attempt <= retries;
    } else {
      AnswerComesFromAnAttempt(model, retries, attempt + 1);
      var k :| attempt + 1 <= k <= retries && model(k).Parsed?
        && forall i :: attempt + 1 <= i < k ==> Retryable(model(i));
      assert forall i :: attempt <= i < k ==> Retryable(model(i));
    }
  }

  function NewRow(lex: Lexicon, req: Request, response: MatchResponse): MatchRow {
    var grounded := Ground(lex, FactsOf(req.facts), response);
    MatchRow(req.userId, req.jobId, grounded, FactsUsed(grounded), req.origin, req.now)
  }

  /** The checks made before the model is asked, in order. */
  function Refusal(req: Request): Option<MatchError> {
    if !req.jobFound then Some(MatchError(404, "JOB_NOT_FOUND"))
    else if !req.usableDescription then Some(MatchError(400, "JOB_DESCRIPTION_INSUFFICIENT"))
    else if req.approvedFacts == 0 then Some(MatchError(400, "PROFILE_FACTS_MISSING"))
    else None
  }

  /** The row a request commits, or none if it fails anywhere on the way. */
  function Committed(lex: Lexicon, retries: nat, req: Request): Option<MatchRow> {
    if Refusal(req).Some? || !req.commits then None
    else
      var answer := Answer(req.model, retries, 0);
      if answer.None? then None else Some(NewRow(lex, req, answer.value))
  }

  /** The transaction: append the result, upsert the owner's state row. */
  function Commit(t: Tables, row: MatchRow): Tables {
    var key := (row.userId, row.jobId);
    var before := if key in t.states then t.states[key] else StateRow("DISCOVERED", None, None, None);
    Tables(t.results + [row],
           t.states[key := before.(matchScore := Some(row.answer.matchScore),
             eligibility := Some(row.answer.eligibility), matchedAt := Some(row.createdAt))])
  }

  function ApplyRun(lex: Lexicon, retries: nat, t: Tables, req: Request): Tables {
    var row := Committed(lex, retries, req);
    if row.None? then t else Commit(t, row.value)
  }

  /** The asking ends without an answer after so many calls: earlier replies were retryable, the last is a failure. */
  ghost predicate EndsAsking(model: nat -> Reply, retries: nat, calls: nat) {
    && 1 <= calls <= retries + 1 && (forall i :: 0 <= i < calls - 1 ==> Retryable(model(i)))
    && !model(calls - 1).Parsed? && (Retryable(model(calls - 1)) ==> calls == retries + 1)
  }

  /** `AskModel` finds the specified answer. */
  method FirstAnswer(model: nat -> Reply, retries: nat) returns (r: Result<MatchResponse>, calls: nat)
    ensures 1 <= calls <= retries + 1
    ensures r.Ok? <==> Answer(model, retries, 0).Some?
    ensures r.Ok? ==> Answer(model, retries, 0) == Some(r.value)
    ensures r.Err? ==> EndsAsking(model, retries, calls) && r.error == FailureOf(model(calls - 1))
  {
    r, calls := AskModel(model, retries);
    if r.Ok? {
      AnswerIsFirstParsed(model, retries, 0, calls - 1);
    } else if Answer(model, retries, 0).Some? {
      AnswerComesFromAnAttempt(model, retries, 0);
    }
  }

  /** Everything before the transaction: the checks, the model, grounding, and the row to save. */
  method Score(lex: Lexicon, retries: nat, req: Request) returns (r: Result<MatchRow>, calls: nat)
    ensures calls <= retries + 1
    ensures Refusal(req).Some? ==> r == Err(Refusal(req).value) && calls == 0
    ensures r.Ok? <==> Refusal(req).None? && Answer(req.model, retries, 0).Some?
    ensures r.Ok? ==> r.value == NewRow(lex, req, Answer(req.model, retries, 0).value)
    ensures Refusal(req).None? && r.Err? ==>
      EndsAsking(req.model, retries, calls) && r.error == FailureOf(req.model(calls - 1))
  {
    var refusal := Refusal(req);
    if refusal.Some? {
      return Err(refusal.value), 0;
    }
    var validated;
    validated, calls := FirstAnswer(req.model, retries);
    if validated.Err? {
      return Err(validated.error), calls;
    }
    var grounded := EnforceGrounding(lex, FactsOf(req.facts), validated.value);
    r := Ok(MatchRow(req.userId, req.jobId, grounded, FactsUsed(grounded), req.origin, req.now));
  }

  class MatchStore {
    var tables: Tables

    constructor (tables: Tables)
      ensures this.tables == tables
    {
      this.tables := tables;
    }

    /** `runMatchForJob`. On every error path both tables are untouched. */
    method RunMatchForJob(lex: Lexicon, configured: Option<int>, req: Request) returns (r: Result<MatchRow>, calls: nat)
      modifies this
      ensures calls <= MalformedRetries(configured) + 1
      ensures tables == ApplyRun(lex, MalformedRetries(configured), old(tables), req)
      ensures r.Ok? <==> Committed(lex, MalformedRetries(configured), req).Some?
      ensures r.Ok? ==> Committed(lex, MalformedRetries(configured), req) == Some(r.value)
      ensures r.Err? ==> tables == old(tables)
      ensures Refusal(req).Some? ==> r == Err(Refusal(req).value) && calls == 0
      ensures Refusal(req).None? && Answer(req.model, MalformedRetries(configured), 0).Some? && !req.commits ==>
        r == Err(NOT_SAVED)
      ensures Refusal(req).None? && Answer(req.model, MalformedRetries(configured), 0).None? ==>
        EndsAsking(req.model, MalformedRetries(configured), calls) && r == Err(FailureOf(req.model(calls - 1)))
    {
      r, calls := Score(lex, MalformedRetries(configured), req);
      if r.Ok? {
        if !req.commits {
          return Err(NOT_SAVED), calls;
        }
        tables := Commit(tables, r.value);
      }
    }
  }

  // ---- the answers in columns ----

  /** The replies worth another attempt: not of the schema, or malformed by the code the client gives it. */
  ghost predicate WorthRetrying(reply: Reply) {
    || reply.OffSchema?
    || (reply.Threw? && reply.error.GeminiError?
        && reply.error.code in ["GEMINI_INVALID_JSON", "GEMINI_EMPTY_RESPONSE"])
    || (reply.Threw? && reply.error.OllamaError? && reply.error.code == "MODEL_OUTPUT_INVALID_JSON")
  }

  /** What the caller is told when the asking ends on this reply. */
  ghost predicate ToldAs(reply: Reply, status: int, code: string) {
    match reply
    case Parsed(_) => false
    case OffSchema => status == 502 && code == "MODEL_RESPONSE_INVALID"
    case Threw(GeminiError(cause, given)) =>
      && (cause == "GEMINI_API_KEY_MISSING" <==> code == "CLOUD_MODEL_NOT_CONFIGURED")
      && (cause == "GEMINI_TIMEOUT" <==> code == "MODEL_TIMEOUT")
      && (cause in ["GEMINI_INVALID_JSON", "GEMINI_EMPTY_RESPONSE"] <==> code == "MODEL_RESPONSE_INVALID")
      && code in ["CLOUD_MODEL_NOT_CONFIGURED", "MODEL_TIMEOUT", "MODEL_RESPONSE_INVALID", "MODEL_UNAVAILABLE"]
      && (code == "CLOUD_MODEL_NOT_CONFIGURED" ==> status == 503) && (code == "MODEL_TIMEOUT" ==> status == 504)
      && (code == "MODEL_RESPONSE_INVALID" ==> status == 502) && (code == "MODEL_UNAVAILABLE" ==> status == given)
    case Threw(OllamaError(_, timedOut)) =>
      if timedOut then status == 504 && code == "MODEL_TIMEOUT" else status == 503 && code == "MODEL_UNAVAILABLE"
    case Threw(Matched(error)) => status == error.status && code == error.code
    case Threw(Other) => status == 500 && code == "MATCH_FAILED"
  }

  lemma CodesDiffer()
    ensures "CLOUD_MODEL_NOT_CONFIGURED" != "MODEL_TIMEOUT" && "CLOUD_MODEL_NOT_CONFIGURED" != "MODEL_RESPONSE_INVALID"
    ensures "CLOUD_MODEL_NOT_CONFIGURED" != "MODEL_UNAVAILABLE" && "MODEL_TIMEOUT" != "MODEL_RESPONSE_INVALID"
    ensures "MODEL_TIMEOUT" != "MODEL_UNAVAILABLE" && "MODEL_RESPONSE_INVALID" != "MODEL_UNAVAILABLE"
    ensures "GEMINI_API_KEY_MISSING" != "GEMINI_TIMEOUT" && "GEMINI_API_KEY_MISSING" != "GEMINI_INVALID_JSON"
    ensures "GEMINI_API_KEY_MISSING" != "GEMINI_EMPTY_RESPONSE" && "GEMINI_TIMEOUT" != "GEMINI_INVALID_JSON"
    ensures "GEMINI_TIMEOUT" != "GEMINI_EMPTY_RESPONSE"
  {
    assert |"CLOUD_MODEL_NOT_CONFIGURED"| == 26 && |"MODEL_TIMEOUT"| == 13 && |"MODEL_RESPONSE_INVALID"| == 22;
    assert |"MODEL_UNAVAILABLE"| == 17 && |"GEMINI_API_KEY_MISSING"| == 22 && |"GEMINI_TIMEOUT"| == 14;
    assert |"GEMINI_INVALID_JSON"| == 19 && |"GEMINI_EMPTY_RESPONSE"| == 21;
  }

  lemma FailureIsToldAs(reply: Reply)
    requires !reply.Parsed?
    ensures ToldAs(reply, FailureOf(reply).status, FailureOf(reply).code)
    ensures Retryable(reply) <==> WorthRetrying(reply)
  {
    CodesDiffer();
  }

  /**
   * When every attempt comes back malformed, the caller is told of an invalid response exactly when the last of them
   * is not the local model's; a local model that never gets its JSON right is reported as unavailable or timed out.
   */
  lemma MalformedToTheEnd(model: nat -> Reply, retries: nat, calls: nat)
    requires EndsAsking(model, retries, calls) && WorthRetrying(model(calls - 1))
    ensures calls == retries + 1
    ensures FailureOf(model(calls - 1)) == MatchError(502, "MODEL_RESPONSE_INVALID") <==>
      !(model(calls - 1).Threw? && model(calls - 1).error.OllamaError?)
  {
    CodesDiffer();
    FailureIsToldAs(model(calls - 1));
  }

  /** The refusals before the model is asked: the first of the three conditions that holds. */
  lemma RefusalsInColumns(req: Request)
    ensures Refusal(req) == Some(MatchError(404, "JOB_NOT_FOUND")) <==> !req.jobFound
    ensures Refusal(req) == Some(MatchError(400, "JOB_DESCRIPTION_INSUFFICIENT")) <==>
      req.jobFound && !req.usableDescription
    ensures Refusal(req) == Some(MatchError(400, "PROFILE_FACTS_MISSING")) <==>
      req.jobFound && req.usableDescription && req.approvedFacts == 0
    ensures Refusal(req) == None <==> req.jobFound && req.usableDescription && req.approvedFacts > 0
  {
    assert |"JOB_DESCRIPTION_INSUFFICIENT"| == 28 && |"PROFILE_FACTS_MISSING"| == 21;
  }

  /** Some attempt within the limit parses, and every earlier one was worth retrying. */
  ghost predicate AnsweredAt(req: Request, retries: nat, k: nat) {
    k <= retries && req.model(k).Parsed? && forall i :: 0 <= i < k ==> WorthRetrying(req.model(i))
  }

  ghost predicate HoldsAnswer(lex: Lexicon, req: Request, k: nat, row: MatchRow) {
    && row.userId == req.userId && row.jobId == req.jobId && row.origin == req.origin && row.createdAt == req.now
    && req.model(k).Parsed? && row.answer == Ground(lex, FactsOf(req.facts), req.model(k).response)
  }

  /**
   * A request commits a row exactly when the job is found and described, there is an approved fact, an attempt within
   * the limit is answered, and the transaction goes through. The row is the caller's, for the job asked for, and holds
   * the grounded form of that answer.
   */
  lemma CommittedInColumns(lex: Lexicon, retries: nat, req: Request)
    ensures Committed(lex, retries, req).Some? <==>
      req.jobFound && req.usableDescription && req.approvedFacts > 0 && req.commits
      && exists k :: AnsweredAt(req, retries, k)
    ensures Committed(lex, retries, req).Some? ==>
      exists k :: AnsweredAt(req, retries, k) && HoldsAnswer(lex, req, k, Committed(lex, retries, req).value)
  {
    RefusalsInColumns(req);
    forall i: nat ensures !req.model(i).Parsed? ==> (Retryable(req.model(i)) <==> WorthRetrying(req.model(i))) {
      if !req.model(i).Parsed? {
        FailureIsToldAs(req.model(i));
      }
    }
    AnswerIffAnswered(req, retries);
  }

  lemma AnswerIffAnswered(req: Request, retries: nat)
    requires forall i: nat :: !req.model(i).Parsed? ==> (Retryable(req.model(i)) <==> WorthRetrying(req.model(i)))
    ensures Answer(req.model, retries, 0).Some? <==> exists k :: AnsweredAt(req, retries, k)
    ensures Answer(req.model, retries, 0).Some? ==>
      exists k :: AnsweredAt(req, retries, k) && Answer(req.model, retries, 0) == Some(req.model(k).response)
  {
    if Answer(req.model, retries, 0).Some? {
      AnswerComesFromAnAttempt(req.model, retries, 0);
      var k :| 0 <= k <= retries && req.model(k).Parsed? && forall i :: 0 <= i < k ==> Retryable(req.model(i));
      assert AnsweredAt(req, retries, k);
      AnswerIsFirstParsed(req.model, retries, 0, k);
    }
    if k: nat :| AnsweredAt(req, retries, k) {
      AnswerIsFirstParsed(req.model, retries, 0, k);
    }
  }

  lemma {:induction false} LastByIdIs(facts: seq<Fact>, value: Fact -> string, i: nat)
    requires i < |facts| && forall j :: i < j < |facts| ==> facts[j].id != facts[i].id
    ensures facts[i].id in LastById(facts, value) && LastById(facts, value)[facts[i].id] == value(facts[i])
  {
    if i < |facts| - 1 {
      LastByIdIs(facts[..|facts| - 1], value, i);
    }
  }

  /**
   * The facts a run works with: an id is valid when a selected fact has it, and its text and type are those of the last
   * selected fact with the id: content, a blank, and the detail if there is one.
   */
  lemma FactsInColumns(facts: seq<Fact>, i: nat)
    requires i < |facts| && forall j :: i < j < |facts| ==> facts[j].id != facts[i].id
    ensures var f, u := facts[i], FactsOf(facts);
            && f.id in u.valid && u.TypeOf(f.id) == Some(f.kind)
            && (f.detail.None? ==> u.TextOf(f.id) == f.content + " ")
            && (f.detail.Some? ==> u.TextOf(f.id) == f.content + " " + f.detail.value)
    ensures forall id :: id in FactsOf(facts).valid ==> exists f :: f in facts && f.id == id
  {
    LastByIdIs(facts, (f: Fact) => f.content + " " + (if f.detail.Some? then f.detail.value else ""), i);
    LastByIdIs(facts, (f: Fact) => f.kind, i);
    assert facts[i] in facts;
  }

  // ---- any sequence of runs by any users ----

  function RunAll(lex: Lexicon, retries: nat, t: Tables, reqs: seq<Request>): Tables
    decreases |reqs|
  {
    if reqs == [] then t else RunAll(lex, retries, ApplyRun(lex, retries, t, reqs[0]), reqs[1..])
  }

  /** The latest result for one person and one job. */
  function LastFor(results: seq<MatchRow>, userId: UserId, jobId: JobId): Option<MatchRow> {
    if results == [] then None
    else
      var last := results[|results| - 1];
      if last.userId == userId && last.jobId == jobId then Some(last)
        else LastFor(results[..|results| - 1], userId, jobId)
  }

  /** The results committed by the runs, in order. */
  function NewResults(lex: Lexicon, retries: nat, reqs: seq<Request>): seq<MatchRow> {
    if reqs == [] then [] else CommittedRows(lex, retries, reqs[0]) + NewResults(lex, retries, reqs[1..])
  }

  function CommittedRows(lex: Lexicon, retries: nat, req: Request): seq<MatchRow> {
    if Committed(lex, retries, req).Some? then [Committed(lex, retries, req).value] else []
  }

  /** The history only grows, by exactly the committed rows in commit order. */
  lemma {:induction false} HistoryIsAppendOnly(lex: Lexicon, retries: nat, t: Tables, reqs: seq<Request>)
    ensures RunAll(lex, retries, t, reqs).results == t.results + NewResults(lex, retries, reqs)
    decreases |reqs|
  {
    if reqs == [] {
      assert t.results + [] == t.results;
    } else {
      assert ApplyRun(lex, retries, t, reqs[0]).results == t.results + CommittedRows(lex, retries, reqs[0]);
      HistoryIsAppendOnly(lex, retries, ApplyRun(lex, retries, t, reqs[0]), reqs[1..]);
      ConcatAssociates(t.results, CommittedRows(lex, retries, reqs[0]), NewResults(lex, retries, reqs[1..]));
    }
  }

  /** What one state row must show, given the rows committed since `before`. */
  ghost predicate Reflects(before: Tables, added: seq<MatchRow>, after: Tables, u: UserId, j: JobId) {
    var last := LastFor(added, u, j);
    if last.None? then
      ((u, j) in after.states <==> (u, j) in before.states)
      && ((u, j) in before.states ==> after.states[(u, j)] == before.states[(u, j)])
    else
      (u, j) in after.states
      && after.states[(u, j)].matchScore == Some(last.value.answer.matchScore)
      && after.states[(u, j)].eligibility == Some(last.value.answer.eligibility)
      && after.states[(u, j)].matchedAt == Some(last.value.createdAt)
      && after.states[(u, j)].applicationStatus
           == if (u, j) in before.states then before.states[(u, j)].applicationStatus else "DISCOVERED"
  }

  ghost predicate Mirrors(before: Tables, added: seq<MatchRow>, after: Tables) {
    forall u: UserId, j: JobId :: Reflects(before, added, after, u, j)
  }

  lemma LastForAppend(added: seq<MatchRow>, row: MatchRow, u: UserId, j: JobId)
    ensures LastFor(added + [row], u, j) == if row.userId == u && row.jobId == j then Some(row)
        else LastFor(added, u, j)
  {
    assert (added + [row])[..|added|] == added;
  }

  lemma CommitMirrors(before: Tables, added: seq<MatchRow>, t: Tables, row: MatchRow)
    requires Mirrors(before, added, t)
    ensures Mirrors(before, added + [row], Commit(t, row))
  {
    forall u: UserId, j: JobId
      ensures Reflects(before, added + [row], Commit(t, row), u, j)
    {
      LastForAppend(added, row, u, j);
      assert Reflects(before, added, t, u, j);
    }
  }

  /**
   * After any sequence of runs, each person's state row for each job shows the score and eligibility of
   * the last result committed for that pair and keeps its tracker status; pairs without a new result are
   * exactly as before, so a failed run changes neither table.
   */
  lemma {:induction false} StatesMirrorLatestResult(lex: Lexicon, retries: nat, before: Tables, added: seq<MatchRow>,
      t: Tables, reqs: seq<Request>)
    requires Mirrors(before, added, t)
    ensures Mirrors(before, added + NewResults(lex, retries, reqs), RunAll(lex, retries, t, reqs))
    decreases |reqs|
  {
    if reqs == [] {
      assert added + [] == added;
    } else {
      var row := Committed(lex, retries, reqs[0]);
      if row.None? {
        StatesMirrorLatestResult(lex, retries, before, added, t, reqs[1..]);
        assert NewResults(lex, retries, reqs) == NewResults(lex, retries, reqs[1..]);
      } else {
        CommitMirrors(before, added, t, row.value);
        StatesMirrorLatestResult(lex, retries, before, added + [row.value], Commit(t, row.value), reqs[1..]);
        assert (added + [row.value]) + NewResults(lex, retries, reqs[1..])
          == added + ([row.value] + NewResults(lex, retries, reqs[1..]));
      }
    }
  }

  lemma StatesMirrorFromTheStart(lex: Lexicon, retries: nat, t: Tables, reqs: seq<Request>)
    ensures Mirrors(t, NewResults(lex, retries, reqs), RunAll(lex, retries, t, reqs))
  {
    assert Mirrors(t, [], t);
    StatesMirrorLatestResult(lex, retries, t, [], t, reqs);
    assert [] + NewResults(lex, retries, reqs) == NewResults(lex, retries, reqs);
  }

  lemma {:induction false} CitedIdsMembers(items: seq<SkillItem>, id: string)
    ensures id in CitedIds(items) <==> exists item :: item in items && id in item.factIds
  {
    if items != [] {
      CitedIdsMembers(items[1..], id);
      if item :| item in items && id in item.factIds {
        assert item == items[0] || item in items[1..];
      }
    }
  }

  lemma {:induction false} CitedInTurn(a: seq<SkillItem>, b: seq<SkillItem>)
    ensures CitedIds(a + b) == CitedIds(a) + CitedIds(b)
    ensures forall item: SkillItem :: CitedIds([item]) == item.factIds
  {
    if a == [] {
      assert a + b == b;
    } else {
      assert (a + b)[1..] == a[1..] + b;
      CitedInTurn(a[1..], b);
      ConcatAssociates(a[0].factIds, CitedIds(a[1..]), CitedIds(b));
    }
  }

  /** The ids stored with a result stand in the order in which its supported and then its other items cite them. */
  lemma FactsUsedInOrder(grounded: MatchResponse, i: nat, j: nat)
    requires i < j < |FactsUsed(grounded)|
    ensures OccursFirst(CitedIds(grounded.skillsSupported) + CitedIds(grounded.skillsNeedConfirmation),
                        FactsUsed(grounded)[i], FactsUsed(grounded)[j])
  {
    CitedInTurn(grounded.skillsSupported, grounded.skillsNeedConfirmation);
    DedupeKeepsOrder(CitedIds(grounded.skillsSupported + grounded.skillsNeedConfirmation), i, j);
  }

  /** Every committed row cites only facts selected for its own run, each once, and exactly those its two lists cite. */
  lemma CommittedRowCitesSelectedFacts(lex: Lexicon, retries: nat, req: Request)
    requires Committed(lex, retries, req).Some?
    ensures var row := Committed(lex, retries, req).value;
            && row.userId == req.userId && row.jobId == req.jobId
            && NoDuplicates(row.factsUsed)
            && (forall id :: id in row.factsUsed ==> exists f :: f in req.facts && f.id == id)
            && (forall id :: id in row.factsUsed <==>
                  exists item :: item in row.answer.skillsSupported + row.answer.skillsNeedConfirmation
                    && id in item.factIds)
  {
    var response := Answer(req.model, retries, 0).value;
    var facts := FactsOf(req.facts);
    var g := Ground(lex, facts, response);
    var items := g.skillsSupported + g.skillsNeedConfirmation;
    forall id ensures id in FactsUsed(g) <==> exists item :: item in items && id in item.factIds {
      CitedIdsMembers(items, id);
    }
    forall id | id in FactsUsed(g) ensures exists f :: f in req.facts && f.id == id {
      var item :| item in items && id in item.factIds;
      if item in g.skillsSupported {
        SupportedIsGrounded(lex, facts, response, item);
      } else {
        ConfirmationIsGrounded(lex, facts, response, item);
      }
      assert id in facts.valid;
    }
  }
}
