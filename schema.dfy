/**
 * The two stored entities (an app idea and its validation result), the
 * insert shapes that omit their generated columns, and the acceptance rule of
 * the idea insert schema: the table's not-null text columns are required
 * strings, its nullable text columns may be absent or null, `id` and
 * `createdAt` are not part of the input, and `agreeToTerms` must be exactly
 * `true`.
 */
module Schema {
  import opened Wrappers
  import opened Json
  import opened Zod

  /** Primary keys; the database generates them (a random uuid in the source). */
  type Id = nat

  /** A row of `app_ideas`. */
  datatype AppIdea = AppIdea(
    id: Id,
    appName: string,
    userName: Option<string>,
    description: string,
    targetMarket: string,
    budget: Option<string>,
    features: Option<string>,
    competition: Option<string>,
    createdAt: int)

  /** The columns of `app_ideas` a client supplies: everything but `id` and `createdAt`. */
  datatype IdeaData = IdeaData(
    appName: string,
    userName: Option<string>,
    description: string,
    targetMarket: string,
    budget: Option<string>,
    features: Option<string>,
    competition: Option<string>)

  /** What the idea insert schema yields: the idea columns plus the consent flag. */
  datatype Submission = Submission(idea: IdeaData, agreeToTerms: bool)

  const TermsMessage := "You must agree to receive brutally honest feedback"

  /** The submissions the idea insert schema accepts, field by field. */
  predicate Accepted(body: Json)
  {
    && body.JObj?
    && IsStringOfLength(body.fields, "appName", 0)
    && IsOptionalString(body.fields, "userName", true)
    && IsStringOfLength(body.fields, "description", 0)
    && IsStringOfLength(body.fields, "targetMarket", 0)
    && IsOptionalString(body.fields, "budget", true)
    && IsOptionalString(body.fields, "features", true)
    && IsOptionalString(body.fields, "competition", true)
    && "agreeToTerms" in body.fields && body.fields["agreeToTerms"] == JBool(true)
  }

  /** `insertAppIdeaSchema.parse(body)`: the submission, or every failing field's issue in shape order. */
  function ParseInsertAppIdea(body: Json): (r: Result<Submission, seq<Issue>>)
    ensures r.Failure? ==> r.error != []
  {
    if !body.JObj? then Failure([NotAnObject])
    else
      var f := body.fields;
      var appName := RequiredString(f, "appName", 0);
      var userName := OptionalString(f, "userName", true);
      var description := RequiredString(f, "description", 0);
      var targetMarket := RequiredString(f, "targetMarket", 0);
      var budget := OptionalString(f, "budget", true);
      var features := OptionalString(f, "features", true);
      var competition := OptionalString(f, "competition", true);
      var terms := TrueBoolean(f, "agreeToTerms", TermsMessage);
      var issues := IssuesOf(appName) + IssuesOf(userName) + IssuesOf(description)
        + IssuesOf(targetMarket) + IssuesOf(budget) + IssuesOf(features)
        + IssuesOf(competition) + IssuesOf(terms);
      if issues != [] then Failure(issues)
      else Success(Submission(
        IdeaData(appName.value, userName.value, description.value, targetMarket.value,
                 budget.value, features.value, competition.value),
        terms.value))
  }

  /** The schema accepts exactly the submissions `Accepted` describes. */
  lemma ParseAcceptsExactly(body: Json)
    ensures ParseInsertAppIdea(body).Success? <==> Accepted(body)
  {
  }

  /** An accepted submission carries the body's own strings and a consent of `true`. */
  lemma ParseKeepsFields(body: Json)
    requires ParseInsertAppIdea(body).Success?
    ensures var s := ParseInsertAppIdea(body).value;
      && s.agreeToTerms
      && body.fields["appName"] == JStr(s.idea.appName)
      && body.fields["description"] == JStr(s.idea.description)
      && body.fields["targetMarket"] == JStr(s.idea.targetMarket)
      && NullableKept(body.fields, "userName", s.idea.userName)
      && NullableKept(body.fields, "budget", s.idea.budget)
      && NullableKept(body.fields, "features", s.idea.features)
      && NullableKept(body.fields, "competition", s.idea.competition)
  {
  }

  /** A nullable column's value: the body's string when it holds one, nothing when the key is absent or null. */
  predicate NullableKept(fields: map<string, Json>, key: string, v: Option<string>)
  {
    if v.Some? then key in fields && fields[key] == JStr(v.value)
    else key !in fields || fields[key] == JNull
  }

  /** Declining the terms is rejected with the schema's own message. */
  lemma TermsDeclinedRejected(body: Json)
    requires body.JObj? && "agreeToTerms" in body.fields && body.fields["agreeToTerms"] == JBool(false)
    ensures ParseInsertAppIdea(body).Failure?
    ensures Issue("agreeToTerms", Custom(TermsMessage)) in ParseInsertAppIdea(body).error
  {
  }

  /** A submission without a description is rejected, and the issue names that field. */
  lemma MissingDescriptionRejected(body: Json)
    requires body.JObj? && "description" !in body.fields
    ensures ParseInsertAppIdea(body).Failure?
    ensures Issue("description", Required) in ParseInsertAppIdea(body).error
  {
  }

  /** Keys outside the schema, `id` and `createdAt` among them, do not influence the outcome. */
  lemma ParseIgnoresForeignKeys(fields: map<string, Json>, key: string, v: Json)
    requires key !in {"appName", "userName", "description", "targetMarket", "budget", "features", "competition", "agreeToTerms"}
    ensures ParseInsertAppIdea(JObj(fields[key := v])) == ParseInsertAppIdea(JObj(fields))
  {
    var g := fields[key := v];
    FieldKept(fields, key, v, "appName");
    assert RequiredString(g, "appName", 0) == RequiredString(fields, "appName", 0);
    FieldKept(fields, key, v, "userName");
    assert OptionalString(g, "userName", true) == OptionalString(fields, "userName", true);
    FieldKept(fields, key, v, "description");
    assert RequiredString(g, "description", 0) == RequiredString(fields, "description", 0);
    FieldKept(fields, key, v, "targetMarket");
    assert RequiredString(g, "targetMarket", 0) == RequiredString(fields, "targetMarket", 0);
    FieldKept(fields, key, v, "budget");
    assert OptionalString(g, "budget", true) == OptionalString(fields, "budget", true);
    FieldKept(fields, key, v, "features");
    assert OptionalString(g, "features", true) == OptionalString(fields, "features", true);
    FieldKept(fields, key, v, "competition");
    assert OptionalString(g, "competition", true) == OptionalString(fields, "competition", true);
    FieldKept(fields, key, v, "agreeToTerms");
    assert TrueBoolean(g, "agreeToTerms", TermsMessage) == TrueBoolean(fields, "agreeToTerms", TermsMessage);
  }

  /** Setting one key leaves every other key's presence and value as it was. */
  lemma FieldKept(fields: map<string, Json>, key: string, v: Json, k: string)
    requires k != key
    ensures (k in fields[key := v]) == (k in fields)
    ensures k in fields ==> fields[key := v][k] == fields[k]
  {
  }

  /** The row `createAppIdea` stores: the supplied columns, a generated id and the insertion time. */
  function NewIdea(id: Id, data: IdeaData, now: int): (a: AppIdea)
    ensures a.id == id && a.createdAt == now
    ensures IdeaData(a.appName, a.userName, a.description, a.targetMarket, a.budget, a.features, a.competition) == data
  {
    AppIdea(id, data.appName, data.userName, data.description, data.targetMarket,
            data.budget, data.features, data.competition, now)
  }

  /** A row of `validation_results`; `appIdeaId` references an `app_ideas` id. */
  datatype ValidationResult = ValidationResult(
    id: Id,
    appIdeaId: Id,
    score: int,
    verdict: string,
    strengths: seq<string>,
    weaknesses: seq<string>,
    opportunities: seq<string>,
    detailedAnalysis: string,
    actionItems: seq<string>,
    createdAt: int)

  /** The insert shape of `validation_results`: no `id`, no `createdAt`; the four lists may be left out. */
  datatype InsertValidationResult = InsertValidationResult(
    appIdeaId: Id,
    score: int,
    verdict: string,
    strengths: Option<seq<string>>,
    weaknesses: Option<seq<string>>,
    opportunities: Option<seq<string>>,
    detailedAnalysis: string,
    actionItems: Option<seq<string>>)

  function OrEmpty(list: Option<seq<string>>): (r: seq<string>)
    ensures list.Some? ==> r == list.value
    ensures list.None? ==> r == []
  {
    match list
    case Some(l) => l
    case None => []
  }

  /** The row a result insert stores: list columns default to the empty list. */
  function NewResult(id: Id, data: InsertValidationResult, now: int): (v: ValidationResult)
    ensures v.id == id && v.createdAt == now
    ensures v.appIdeaId == data.appIdeaId && v.score == data.score && v.verdict == data.verdict
    ensures v.detailedAnalysis == data.detailedAnalysis
    ensures v.strengths == OrEmpty(data.strengths) && v.weaknesses == OrEmpty(data.weaknesses)
    ensures v.opportunities == OrEmpty(data.opportunities) && v.actionItems == OrEmpty(data.actionItems)
  {
    ValidationResult(id, data.appIdeaId, data.score, data.verdict,
                     OrEmpty(data.strengths), OrEmpty(data.weaknesses), OrEmpty(data.opportunities),
                     data.detailedAnalysis, OrEmpty(data.actionItems), now)
  }

  /** `ValidationResultWithIdea`: the result's columns plus the joined idea as `appIdea`. */
  datatype ResultWithIdea = ResultWithIdea(result: ValidationResult, appIdea: AppIdea)
}
