/**
 * The Express handlers: `POST /api/validate`, `GET /api/results/:id` and
 * `GET /api/results`.  Each runs its storage steps in the source's order;
 * the language model call and JSON.parse are parameters.
 */
module Routes {
  import opened Wrappers
  import opened Json
  import opened Zod
  import opened Schema
  import opened Gemini
  import opened Storage
  import Queries

  /** A JSON response body. */
  datatype Body =
    | Record(record: ResultWithIdea)                      // a result's fields plus `appIdea`
    | Records(records: seq<ResultWithIdea>)
    | Message(message: string)
    | InvalidInput(message: string, errors: seq<Issue>)

  datatype Response = Response(status: int, body: Body)

  /** What a `catch` block can receive in `POST /api/validate`. */
  datatype Thrown =
    | ValidationError(issues: seq<Issue>)   // a ZodError
    | ErrorObject(message: string)           // any other Error
    | NonError                               // a thrown value that is not an Error

  const InvalidInputMessage := "Invalid input data"
  const ValidateFallbackMessage := "Failed to validate app idea"
  const NotFoundMessage := "Validation result not found"
  const GetResultFailedMessage := "Failed to get validation result"
  const GetResultsFailedMessage := "Failed to get validation results"

  /** The `catch` block of `POST /api/validate`. */
  function ValidateErrorResponse(e: Thrown): (r: Response)
    ensures r.status == 400 <==> e.ValidationError?
    ensures r.status == 400 || r.status == 500
    ensures e.ValidationError? ==> r.body == InvalidInput(InvalidInputMessage, e.issues)
    ensures e.ErrorObject? ==> r.body == Message(e.message)
    ensures e.NonError? ==> r.body == Message(ValidateFallbackMessage)
  {
    match e
    case ValidationError(issues) => Response(400, InvalidInput(InvalidInputMessage, issues))
    case ErrorObject(message) => Response(500, Message(message))
    case NonError => Response(500, Message(ValidateFallbackMessage))
  }

  /** The result insert built from the created idea and the analysis. */
  function ResultInsert(idea: AppIdea, a: ValidationAnalysis): InsertValidationResult
  {
    InsertValidationResult(idea.id, a.score, a.verdict, Some(a.strengths), Some(a.weaknesses),
                           Some(a.opportunities), a.detailedAnalysis, Some(a.actionItems))
  }

  /** The stored result references the created idea and carries the analysis's own fields. */
  lemma StoredResultMirrorsAnalysis(id: Id, idea: AppIdea, a: ValidationAnalysis, now: int)
    ensures var stored := NewResult(id, ResultInsert(idea, a), now);
      && stored.appIdeaId == idea.id
      && stored.score == a.score && stored.verdict == a.verdict
      && stored.strengths == a.strengths && stored.weaknesses == a.weaknesses
      && stored.opportunities == a.opportunities && stored.actionItems == a.actionItems
      && stored.detailedAnalysis == a.detailedAnalysis
  {
  }

  /** The tables and the answer after an accepted idea `data` was stored and analysed with
      `outcome`, given the tables and the id counter before. */
  ghost predicate Submitted(
      st: DatabaseStorage, ideas0: seq<AppIdea>, results0: seq<ValidationResult>, next0: Id,
      data: IdeaData, outcome: Result<ValidationAnalysis, string>, now: int, resp: Response)
    reads st
  {
    var idea := NewIdea(next0, data, now);
    && st.ideas == ideas0 + [idea]
    && match outcome
       case Failure(msg) =>
         && resp == Response(500, Message(msg))
         && st.results == results0
       case Success(a) =>
         var stored := NewResult(next0 + 1, ResultInsert(idea, a), now);
         && st.results == results0 + [stored]
         && resp == Response(200, Record(ResultWithIdea(stored, idea)))
  }

  /** `POST /api/validate`: validate, strip `agreeToTerms`, store the idea, analyse, store the result. */
  method PostValidate(
      st: DatabaseStorage, body: Json,
      gemini: IdeaData -> Reply, parse: string -> Result<BrutalAnalysis, string>,
      now: int)
    returns (resp: Response)
    requires st.Valid()
    modifies st
    ensures st.Valid()
    ensures st.limits == old(st.limits)
    // A rejected submission stores nothing.
    ensures ParseInsertAppIdea(body).Failure? ==>
      && resp == Response(400, InvalidInput(InvalidInputMessage, ParseInsertAppIdea(body).error))
      && st.ideas == old(st.ideas) && st.results == old(st.results)
    // An accepted one is stored without its consent flag, before it is analysed.
    ensures ParseInsertAppIdea(body).Success? ==>
      var data := ParseInsertAppIdea(body).value.idea;
      Submitted(st, old(st.ideas), old(st.results), old(st.nextId), data, ValidateAppIdea(gemini(data), parse), now, resp)
    // A failed analysis leaves the new idea stored with no result referencing it.
    ensures resp.status == 500 ==>
      && |st.ideas| == |old(st.ideas)| + 1
      && st.results == old(st.results)
      && forall v :: v in st.results ==> v.appIdeaId != st.ideas[|st.ideas| - 1].id
    // A stored result can be fetched back by its id.
    ensures resp.status == 200 ==>
      resp.body.Record? && st.GetValidationResultWithIdea(resp.body.record.result.id) == Some(resp.body.record)
  {
    var parsed := ParseInsertAppIdea(body);
    if parsed.Failure? {
      resp := ValidateErrorResponse(ValidationError(parsed.error));
      return;
    }
    // The consent flag is not a column: only the idea's columns are stored.
    var appIdeaData := parsed.value.idea;
    resp := StoreAndAnalyse(st, appIdeaData, gemini(appIdeaData), parse, now);
  }

  /** The part of `POST /api/validate` after validation: the two inserts around the analysis. */
  method StoreAndAnalyse(
      st: DatabaseStorage, appIdeaData: IdeaData,
      reply: Reply, parse: string -> Result<BrutalAnalysis, string>, now: int)
    returns (resp: Response)
    requires st.Valid()
    modifies st
    ensures st.Valid()
    ensures st.limits == old(st.limits)
    ensures Submitted(st, old(st.ideas), old(st.results), old(st.nextId), appIdeaData, ValidateAppIdea(reply, parse), now, resp)
    ensures resp.status == 500 ==>
      && |st.ideas| == |old(st.ideas)| + 1
      && st.results == old(st.results)
      && forall v :: v in st.results ==> v.appIdeaId != st.ideas[|st.ideas| - 1].id
    ensures resp.status == 200 ==>
      resp.body.Record? && st.GetValidationResultWithIdea(resp.body.record.result.id) == Some(resp.body.record)
  {
    ghost var before := st.results;
    var appIdea := st.CreateAppIdea(appIdeaData, now);
    var analysis := ValidateAppIdea(reply, parse);
    if analysis.Failure? {
      forall v | v in st.results ensures v.appIdeaId != appIdea.id {
        assert v in before;
        var a :| a in old(st.ideas) && a.id == v.appIdeaId;
      }
      resp := ValidateErrorResponse(ErrorObject(analysis.error));
      return;
    }
    assert appIdea in st.ideas;
    var validationResult := st.CreateValidationResult(ResultInsert(appIdea, analysis.value), now);
    assert validationResult.Success?;
    var record := ResultWithIdea(validationResult.value, appIdea);
    FreshRowIsFound(before, old(st.ideas), validationResult.value, appIdea);
    resp := Response(200, Record(record));
  }

  /** The row just appended under a fresh id, with its freshly stored idea, is what the lookup by id finds. */
  lemma FreshRowIsFound(before: seq<ValidationResult>, ideas: seq<AppIdea>, v: ValidationResult, idea: AppIdea)
    requires forall w :: w in before ==> w.id != v.id
    requires forall a :: a in ideas ==> a.id != idea.id
    requires v.appIdeaId == idea.id
    ensures Queries.ResultWithIdeaById(before + [v], ideas + [idea], v.id) == Some(ResultWithIdea(v, idea))
  {
    var found := Queries.FindResult(before + [v], v.id);
    assert v in before + [v];
    assert found.value == v;
    var owner := Queries.FindIdea(ideas + [idea], idea.id);
    assert idea in ideas + [idea];
    assert owner.value == idea;
  }

  /** `GET /api/results/:id`; `driverFails` says whether the database call throws. */
  method GetResult(st: DatabaseStorage, id: Id, driverFails: bool) returns (resp: Response)
    ensures driverFails ==> resp == Response(500, Message(GetResultFailedMessage))
    ensures !driverFails && st.GetValidationResultWithIdea(id).None? ==> resp == Response(404, Message(NotFoundMessage))
    ensures !driverFails && st.GetValidationResultWithIdea(id).Some? ==>
      && resp == Response(200, Record(st.GetValidationResultWithIdea(id).value))
      && resp.body.record.result.id == id
      && resp.body.record.appIdea.id == resp.body.record.result.appIdeaId
  {
    if driverFails {
      resp := Response(500, Message(GetResultFailedMessage));
      return;
    }
    var result := st.GetValidationResultWithIdea(id);
    if result.None? {
      resp := Response(404, Message(NotFoundMessage));
      return;
    }
    resp := Response(200, Record(result.value));
  }

  /** `GET /api/results`; `driverFails` says whether the database call throws. */
  method GetResults(st: DatabaseStorage, driverFails: bool) returns (resp: Response)
    ensures driverFails ==> resp == Response(500, Message(GetResultsFailedMessage))
    ensures !driverFails ==>
      && resp == Response(200, Records(st.GetAllValidationResults()))
      && |resp.body.records| <= Queries.AllResultsLimit
      && Queries.NewestFirstWithIdea(resp.body.records)
      && forall k :: 0 <= k < |resp.body.records| ==> resp.body.records[k].result in st.results
  {
    if driverFails {
      resp := Response(500, Message(GetResultsFailedMessage));
      return;
    }
    var results := st.GetAllValidationResults();
    resp := Response(200, Records(results));
  }
}
