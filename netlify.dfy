/**
 * The serverless handler deployed as a Netlify function: a chain of early
 * returns from (method, path, raw body, headers) to (status, headers, body).
 * JSON.parse, the GEMINI_API_KEY environment variable, the language model
 * call and the clock are parameters.
 */
module NetlifyApi {
  import opened Wrappers
  import opened Strings
  import opened Json
  import opened Zod
  import Gemini

  /** The parts of a Netlify event the handler reads. */
  datatype Event = Event(
    httpMethod: string,
    path: string,
    body: Option<string>,
    headers: map<string, string>)

  /** The CORS headers every response carries. */
  const Cors: map<string, string> := map[
    "Access-Control-Allow-Origin" := "*",
    "Access-Control-Allow-Headers" := "Content-Type",
    "Access-Control-Allow-Methods" := "GET, POST, PUT, DELETE, OPTIONS"]

  const FunctionPrefix := "/.netlify/functions/api"
  const InvalidJsonMessage := "Invalid JSON in request body"
  const BodyRequiredMessage := "Request body is required"
  const RouteNotFoundMessage := "Route not found"
  const MissingKeyMessage := "GEMINI_API_KEY environment variable is required"
  const EmptyAiMessage := "Empty response from AI"
  const InvalidAiJsonMessage := "Invalid JSON response from AI"
  const UnknownErrorMessage := "Unknown error"
  /** The fixed quota the handler reports; it keeps no rate-limit state. */
  const ReportedRemaining := 4
  /** How many characters of a section analysis a strength or opportunity keeps. */
  const HighlightLength := 100
  /** The separator between sections: a backslash, `n`, a backslash, `n` (not line breaks). */
  const Separator := "\\n\\n"

  // ---------------------------------------------------------------- validator

  /** What the handler's own idea schema yields. */
  datatype ApiIdea = ApiIdea(
    appName: string,
    description: string,
    targetMarket: string,
    budget: Option<string>,
    userName: Option<string>,
    features: Option<string>,
    competition: Option<string>)

  /** The bodies the handler's schema accepts: three strings of minimum length, four optional strings. */
  predicate ApiAccepted(body: Json)
  {
    && body.JObj?
    && IsStringOfLength(body.fields, "appName", 1)
    && IsStringOfLength(body.fields, "description", 10)
    && IsStringOfLength(body.fields, "targetMarket", 1)
    && IsOptionalString(body.fields, "budget", false)
    && IsOptionalString(body.fields, "userName", false)
    && IsOptionalString(body.fields, "features", false)
    && IsOptionalString(body.fields, "competition", false)
  }

  /** `insertAppIdeaSchema.parse(body)` of the handler: the idea, or the failing fields' issues in shape order. */
  function ParseApiIdea(body: Json): (r: Result<ApiIdea, seq<Issue>>)
    ensures r.Failure? ==> r.error != []
  {
    if !body.JObj? then Failure([NotAnObject])
    else
      var f := body.fields;
      var appName := RequiredString(f, "appName", 1);
      var description := RequiredString(f, "description", 10);
      var targetMarket := RequiredString(f, "targetMarket", 1);
      var budget := OptionalString(f, "budget", false);
      var userName := OptionalString(f, "userName", false);
      var features := OptionalString(f, "features", false);
      var competition := OptionalString(f, "competition", false);
      var issues := IssuesOf(appName) + IssuesOf(description) + IssuesOf(targetMarket)
        + IssuesOf(budget) + IssuesOf(userName) + IssuesOf(features) + IssuesOf(competition);
      if issues != [] then Failure(issues)
      else Success(ApiIdea(appName.value, description.value, targetMarket.value,
                           budget.value, userName.value, features.value, competition.value))
  }

  /** The schema accepts exactly the bodies `ApiAccepted` describes, and keeps their strings. */
  lemma ApiParseAcceptsExactly(body: Json)
    ensures ParseApiIdea(body).Success? <==> ApiAccepted(body)
    ensures ParseApiIdea(body).Success? ==>
      var d := ParseApiIdea(body).value;
      && body.fields["appName"] == JStr(d.appName) && Utf16Length(d.appName) >= 1
      && body.fields["description"] == JStr(d.description) && Utf16Length(d.description) >= 10
      && body.fields["targetMarket"] == JStr(d.targetMarket) && Utf16Length(d.targetMarket) >= 1
      && OptionalKept(body.fields, "budget", d.budget)
      && OptionalKept(body.fields, "userName", d.userName)
      && OptionalKept(body.fields, "features", d.features)
      && OptionalKept(body.fields, "competition", d.competition)
  {
  }

  /** An optional field's value: the body's string when present, nothing when the key is absent. */
  predicate OptionalKept(fields: map<string, Json>, key: string, v: Option<string>)
  {
    if key in fields then v.Some? && fields[key] == JStr(v.value) else v.None?
  }

  /** A description shorter than ten UTF-16 code units is rejected, and the issue names that field and bound. */
  lemma ShortDescriptionRejected(body: Json)
    requires body.JObj? && "description" in body.fields
    requires body.fields["description"].JStr? && Utf16Length(body.fields["description"].s) < 10
    ensures ParseApiIdea(body).Failure?
    ensures Issue("description", TooSmall(10)) in ParseApiIdea(body).error
  {
  }

  /** Five characters above U+FFFF are ten code units, enough for a description. */
  lemma AstralDescriptionLongEnough(body: Json)
    requires body.JObj? && "description" in body.fields
    requires body.fields["description"] == JStr("\U{1F600}\U{1F600}\U{1F600}\U{1F600}\U{1F600}")
    ensures IsStringOfLength(body.fields, "description", 10)
    ensures RequiredString(body.fields, "description", 10).Success?
  {
    var e := "\U{1F600}\U{1F600}\U{1F600}\U{1F600}\U{1F600}";
    assert e[1..][1..][1..][1..][1..] == [];
    assert Utf16Length(e) == 10;
  }

  // ---------------------------------------------------------------- client IP

  /** A header's value, "" (falsy) when the header is absent. */
  function HeaderValue(headers: map<string, string>, name: string): string
  {
    if name in headers then headers[name] else ""
  }

  /** The client IP: the first truthy of three forwarding headers, else "unknown". */
  function ClientIp(headers: map<string, string>): (ip: string)
    ensures ip != ""
    ensures HeaderValue(headers, "x-forwarded-for") != "" ==> ip == headers["x-forwarded-for"]
    ensures HeaderValue(headers, "x-forwarded-for") == "" && HeaderValue(headers, "x-real-ip") != "" ==>
      ip == headers["x-real-ip"]
    ensures HeaderValue(headers, "x-forwarded-for") == "" && HeaderValue(headers, "x-real-ip") == "" ==>
      if HeaderValue(headers, "client-ip") != "" then ip == headers["client-ip"] else ip == "unknown"
    ensures ip == "unknown" || ip in headers.Values
  {
    var forwarded := HeaderValue(headers, "x-forwarded-for");
    var realIp := HeaderValue(headers, "x-real-ip");
    var client := HeaderValue(headers, "client-ip");
    if forwarded != "" then forwarded
    else if realIp != "" then realIp
    else if client != "" then client
    else "unknown"
  }

  // ---------------------------------------------------------------- analysis

  /** `analyzeAppIdea` after the model call: no structure check, only the key, an empty text and unparsable JSON are errors. */
  function AnalyzeAppIdea(apiKey: string, reply: Gemini.Reply, parse: string -> Option<Gemini.BrutalAnalysis>): (r: Result<Gemini.BrutalAnalysis, string>)
    ensures r.Success? <==>
      && apiKey != "" && reply.Success? && reply.value.Some? && reply.value.value != ""
      && parse(reply.value.value).Some?
    ensures r.Success? ==> r.value == parse(reply.value.value).value
    ensures apiKey == "" ==> r == Failure(MissingKeyMessage)
    ensures apiKey != "" && reply.Success? && (reply.value.None? || reply.value.value == "") ==>
      r == Failure(EmptyAiMessage)
    // A thrown model call passes its message on; an unparsable text has its own message.
    ensures apiKey != "" && reply.Failure? ==> r == Failure(reply.error)
    ensures (apiKey != "" && reply.Success? && reply.value.Some? && reply.value.value != ""
             && parse(reply.value.value).None?) ==> r == Failure(InvalidAiJsonMessage)
  {
    if apiKey == "" then Failure(MissingKeyMessage)
    else match reply
      case Failure(msg) => Failure(msg)
      case Success(text) =>
        if text.None? || text.value == "" then Failure(EmptyAiMessage)
        else match parse(text.value)
          case None => Failure(InvalidAiJsonMessage)
          case Some(a) => Success(a)
  }

  /** Unlike the server's analysis service, a parsed analysis without a verdict or with a zero score is accepted. */
  lemma AcceptsMalformedAnalysis(apiKey: string, text: string, parse: string -> Option<Gemini.BrutalAnalysis>)
    requires apiKey != "" && text != "" && parse(text).Some?
    requires !Gemini.WellFormed(parse(text).value)
    ensures AnalyzeAppIdea(apiKey, Success(Some(text)), parse) == Success(parse(text).value)
  {
  }

  // ---------------------------------------------------------------- response shaping

  /** The idea echoed back; both timestamps are the request time. */
  datatype EchoedIdea = EchoedIdea(
    id: int,
    appName: string,
    description: string,
    targetMarket: string,
    budget: Option<string>,
    createdAt: int)

  /** The body of a successful `POST /analyze`. */
  datatype AnalyzeBody = AnalyzeBody(
    id: int,
    appIdea: EchoedIdea,
    score: int,
    verdict: string,
    strengths: seq<string>,
    weaknesses: seq<string>,
    opportunities: seq<string>,
    detailedAnalysis: string,
    actionItems: seq<string>,
    brutalAnalysis: Gemini.BrutalAnalysis,
    remainingRequests: int,
    createdAt: int)

  /** "Fatal Flaw {i+1}: {flaw}". */
  function FlawItem(i: nat, flaw: string): string
  {
    "Fatal Flaw " + NatToString(i + 1) + ": " + flaw
  }

  /** One "Fatal Flaw" item per flaw, in order, numbered from `from` + 1. */
  function FlawItems(flaws: seq<string>, from: nat := 0): (items: seq<string>)
    ensures |items| == |flaws|
    ensures forall i :: 0 <= i < |flaws| ==> items[i] == FlawItem(from + i, flaws[i])
    decreases |flaws|
  {
    if flaws == [] then []
    else [FlawItem(from, flaws[0])] + FlawItems(flaws[1..], from + 1)
  }

  /** A rendered number consists of digits and a sign only. */
  lemma NoLineBreakInNumber(x: int)
    ensures '\n' !in IntToString(x)
  {
  }

  /** A section line breaks a line only where its analysis does. */
  lemma SectionLineBreaks(name: string, s: Gemini.Section)
    requires '\n' !in name
    ensures '\n' in SectionLine(name, s) <==> '\n' in s.analysis
  {
    NoLineBreakInNumber(s.score);
  }

  /** "{name} Score: {score}/10 - {analysis}". */
  function SectionLine(name: string, s: Gemini.Section): string
  {
    name + " Score: " + IntToString(s.score) + "/10 - " + s.analysis
  }

  /** The four scored sections in the order Market, Competition, Technical, Monetization,
      joined by the four-character `Separator`, which adds no line break. */
  function ApiDetailedAnalysis(a: Gemini.BrutalAnalysis): string
  {
    SectionLine("Market", a.marketReality)
    + Separator + SectionLine("Competition", a.competitionAnalysis)
    + Separator + SectionLine("Technical", a.technicalFeasibility)
    + Separator + SectionLine("Monetization", a.monetizationReality)
  }

  /** The separator is literal text: the only line breaks are those inside the four analyses. */
  lemma ApiDetailedAnalysisLineBreaks(a: Gemini.BrutalAnalysis)
    ensures '\n' in ApiDetailedAnalysis(a) <==>
      || '\n' in a.marketReality.analysis || '\n' in a.competitionAnalysis.analysis
      || '\n' in a.technicalFeasibility.analysis || '\n' in a.monetizationReality.analysis
  {
    SectionLineBreaks("Market", a.marketReality);
    SectionLineBreaks("Competition", a.competitionAnalysis);
    SectionLineBreaks("Technical", a.technicalFeasibility);
    SectionLineBreaks("Monetization", a.monetizationReality);
    var x := SectionLine("Market", a.marketReality) + Separator;
    assert '\n' in x <==> '\n' in a.marketReality.analysis;
    x := x + SectionLine("Competition", a.competitionAnalysis) + Separator;
    assert '\n' in x <==> '\n' in a.marketReality.analysis || '\n' in a.competitionAnalysis.analysis;
    x := x + SectionLine("Technical", a.technicalFeasibility) + Separator;
    assert '\n' in x <==>
      '\n' in a.marketReality.analysis || '\n' in a.competitionAnalysis.analysis || '\n' in a.technicalFeasibility.analysis;
    assert ApiDetailedAnalysis(a) == x + SectionLine("Monetization", a.monetizationReality);
  }

  /** The success body built from the validated idea and the raw analysis. */
  function ShapeAnalysis(data: ApiIdea, a: Gemini.BrutalAnalysis, now: int): (b: AnalyzeBody)
    ensures b.appIdea == EchoedIdea(now, data.appName, data.description, data.targetMarket, data.budget, now)
    ensures b.score == a.overallScore && b.verdict == a.verdict && b.brutalAnalysis == a
    ensures a.verdict != "BUILD" ==> b.strengths == [] && b.opportunities == []
    ensures a.verdict == "BUILD" ==>
      && b.strengths == [Truncate(a.marketReality.analysis, HighlightLength), Truncate(a.technicalFeasibility.analysis, HighlightLength)]
      && b.opportunities == [Truncate(a.monetizationReality.analysis, HighlightLength), Truncate(a.competitionAnalysis.analysis, HighlightLength)]
    ensures b.weaknesses == a.fatalFlaws
    ensures |b.actionItems| == |a.fatalFlaws|
    ensures forall i :: 0 <= i < |a.fatalFlaws| ==> b.actionItems[i] == FlawItem(i, a.fatalFlaws[i])
    ensures b.detailedAnalysis == ApiDetailedAnalysis(a)
    ensures b.remainingRequests == ReportedRemaining
    ensures b.id == now && b.createdAt == now
  {
    var build := a.verdict == "BUILD";
    AnalyzeBody(
      now,
      EchoedIdea(now, data.appName, data.description, data.targetMarket, data.budget, now),
      a.overallScore,
      a.verdict,
      if build then [Truncate(a.marketReality.analysis, HighlightLength), Truncate(a.technicalFeasibility.analysis, HighlightLength)] else [],
      a.fatalFlaws,
      if build then [Truncate(a.monetizationReality.analysis, HighlightLength), Truncate(a.competitionAnalysis.analysis, HighlightLength)] else [],
      ApiDetailedAnalysis(a),
      FlawItems(a.fatalFlaws),
      a,
      ReportedRemaining,
      now)
  }

  /** Unlike the server, the verdict is passed through: "CAUTION" can reach the client. */
  lemma VerdictPassedThrough(data: ApiIdea, a: Gemini.BrutalAnalysis, now: int)
    requires a.verdict == "CAUTION"
    ensures ShapeAnalysis(data, a, now).verdict == "CAUTION"
    ensures ShapeAnalysis(data, a, now).strengths == []
    ensures Gemini.ToValidation(a).verdict == "BAIL"
  {
  }

  /** Each highlight is the opening of its section's analysis, at most 100 code units long,
      and the whole analysis when that is short enough. */
  lemma HighlightsArePrefixes(data: ApiIdea, a: Gemini.BrutalAnalysis, now: int)
    requires a.verdict == "BUILD"
    ensures var b := ShapeAnalysis(data, a, now);
      && IsPrefix(b.strengths[0], a.marketReality.analysis)
      && IsPrefix(b.strengths[1], a.technicalFeasibility.analysis)
      && IsPrefix(b.opportunities[0], a.monetizationReality.analysis)
      && IsPrefix(b.opportunities[1], a.competitionAnalysis.analysis)
      && Utf16Length(b.strengths[0]) <= HighlightLength && Utf16Length(b.strengths[1]) <= HighlightLength
      && Utf16Length(b.opportunities[0]) <= HighlightLength && Utf16Length(b.opportunities[1]) <= HighlightLength
      && (Utf16Length(a.marketReality.analysis) <= HighlightLength ==> b.strengths[0] == a.marketReality.analysis)
      && (Utf16Length(a.technicalFeasibility.analysis) <= HighlightLength ==> b.strengths[1] == a.technicalFeasibility.analysis)
      && (Utf16Length(a.monetizationReality.analysis) <= HighlightLength ==> b.opportunities[0] == a.monetizationReality.analysis)
      && (Utf16Length(a.competitionAnalysis.analysis) <= HighlightLength ==> b.opportunities[1] == a.competitionAnalysis.analysis)
  {
  }

  // ---------------------------------------------------------------- handler

  /** How a thrown error's message reaches the client. */
  datatype ErrorDetail =
    | Issues(issues: seq<Issue>)   // a ZodError, whose message is its serialised issue list
    | Text(message: string)

  datatype ApiBody =
    | Empty                                // ''
    | ErrorBody(error: string)             // { error }
    | InternalError(detail: ErrorDetail)   // { error: "Internal server error", message }
    | Analysis(result: AnalyzeBody)
    | AnalyticsSnapshot                    // the constant statistics object
    | EmptyList                            // []

  datatype ApiResponse = ApiResponse(statusCode: int, headers: map<string, string>, body: ApiBody)

  /** The `catch` block: 500 with the error's message, "Unknown error" when it has none. */
  function Internal(detail: ErrorDetail): (r: ApiResponse)
    ensures r.statusCode == 500 && r.headers == Cors && r.body.InternalError?
    ensures detail.Issues? ==> r.body.detail == detail
    ensures detail.Text? ==> r.body.detail == Text(if detail.message == "" then UnknownErrorMessage else detail.message)
  {
    match detail
    case Issues(_) => ApiResponse(500, Cors, InternalError(detail))
    case Text(m) => ApiResponse(500, Cors, InternalError(Text(if m == "" then UnknownErrorMessage else m)))
  }

  /** Whether `event.body` is truthy. */
  predicate HasBody(ev: Event)
  {
    ev.body.Some? && ev.body.value != ""
  }

  /** The route path: the function prefix removed from its first occurrence. */
  function RoutePath(ev: Event): (path: string)
    ensures IsPrefix(FunctionPrefix, ev.path) ==> path == ev.path[|FunctionPrefix|..]
    ensures (forall j :: 0 <= j <= |ev.path| ==> !OccursAt(ev.path, FunctionPrefix, j)) ==> path == ev.path
  {
    ReplaceFirst(ev.path, FunctionPrefix, "")
  }

  /** `POST /analyze` once the body is parsed (`body` is null when the event had none). */
  function HandleAnalyze(
      body: Json, apiKey: string,
      model: ApiIdea -> Gemini.Reply, parse: string -> Option<Gemini.BrutalAnalysis>,
      now: int)
    : (r: ApiResponse)
    ensures r.headers == Cors
    ensures !Truthy(body) ==> r == ApiResponse(400, Cors, ErrorBody(BodyRequiredMessage))
    ensures Truthy(body) && ParseApiIdea(body).Failure? ==> r == Internal(Issues(ParseApiIdea(body).error))
    ensures r.statusCode == 200 <==>
      && Truthy(body) && ParseApiIdea(body).Success?
      && AnalyzeAppIdea(apiKey, model(ParseApiIdea(body).value), parse).Success?
    ensures r.statusCode == 200 ==>
      r.body == Analysis(ShapeAnalysis(ParseApiIdea(body).value,
                                       AnalyzeAppIdea(apiKey, model(ParseApiIdea(body).value), parse).value, now))
    // A failed analysis reaches the `catch` block: 500 with its message.
    ensures Truthy(body) && ParseApiIdea(body).Success?
            && AnalyzeAppIdea(apiKey, model(ParseApiIdea(body).value), parse).Failure? ==>
      r == Internal(Text(AnalyzeAppIdea(apiKey, model(ParseApiIdea(body).value), parse).error))
  {
    if !Truthy(body) then ApiResponse(400, Cors, ErrorBody(BodyRequiredMessage))
    else match ParseApiIdea(body)
      case Failure(issues) => Internal(Issues(issues))
      case Success(data) =>
        match AnalyzeAppIdea(apiKey, model(data), parse)
        case Failure(msg) => Internal(Text(msg))
        case Success(a) => ApiResponse(200, Cors, Analysis(ShapeAnalysis(data, a, now)))
  }

  /** `exports.handler`. */
  function Handle(
      ev: Event, apiKey: string, parseJson: string -> Option<Json>,
      model: ApiIdea -> Gemini.Reply, parse: string -> Option<Gemini.BrutalAnalysis>,
      now: int)
    : (r: ApiResponse)
    ensures r.headers == Cors
    ensures ev.httpMethod == "OPTIONS" ==> r == ApiResponse(200, Cors, Empty)
    // A malformed body is rejected before any route is looked at.
    ensures ev.httpMethod != "OPTIONS" && HasBody(ev) && parseJson(ev.body.value).None? ==>
      r == ApiResponse(400, Cors, ErrorBody(InvalidJsonMessage))
    ensures ev.httpMethod != "OPTIONS" && !(HasBody(ev) && parseJson(ev.body.value).None?) ==>
      var path := RoutePath(ev);
      var body := if HasBody(ev) then parseJson(ev.body.value).value else JNull;
      if path == "/analyze" && ev.httpMethod == "POST" then
        r == HandleAnalyze(body, apiKey, model, parse, now)
      else if path == "/analytics" && ev.httpMethod == "GET" then
        r == ApiResponse(200, Cors, AnalyticsSnapshot)
      else if (path == "/results" || path == "/wall-of-shame") && ev.httpMethod == "GET" then
        r == ApiResponse(200, Cors, EmptyList)
      else
        r == ApiResponse(404, Cors, ErrorBody(RouteNotFoundMessage))
  {
    if ev.httpMethod == "OPTIONS" then ApiResponse(200, Cors, Empty)
    else
      var path := RoutePath(ev);
      var verb := ev.httpMethod;
      if HasBody(ev) && parseJson(ev.body.value).None? then
        ApiResponse(400, Cors, ErrorBody(InvalidJsonMessage))
      else
        var body := if HasBody(ev) then parseJson(ev.body.value).value else JNull;
        if path == "/analyze" && verb == "POST" then HandleAnalyze(body, apiKey, model, parse, now)
        else if path == "/analytics" && verb == "GET" then ApiResponse(200, Cors, AnalyticsSnapshot)
        else if (path == "/results" || path == "/wall-of-shame") && verb == "GET" then ApiResponse(200, Cors, EmptyList)
        else ApiResponse(404, Cors, ErrorBody(RouteNotFoundMessage))
  }

  /** The status codes the handler can answer with. */
  lemma StatusCodes(
      ev: Event, apiKey: string, parseJson: string -> Option<Json>,
      model: ApiIdea -> Gemini.Reply, parse: string -> Option<Gemini.BrutalAnalysis>, now: int)
    ensures Handle(ev, apiKey, parseJson, model, parse, now).statusCode in {200, 400, 404, 500}
    ensures Handle(ev, apiKey, parseJson, model, parse, now).statusCode == 404 ==>
      && ev.httpMethod != "OPTIONS"
      && !(RoutePath(ev) == "/analyze" && ev.httpMethod == "POST")
      && !(RoutePath(ev) in {"/analytics", "/results", "/wall-of-shame"} && ev.httpMethod == "GET")
  {
  }

  /** A body the schema rejects on `POST /analyze` is answered with 500, not 400. */
  lemma ValidationFailureIsInternalError(
      ev: Event, apiKey: string, parseJson: string -> Option<Json>,
      model: ApiIdea -> Gemini.Reply, parse: string -> Option<Gemini.BrutalAnalysis>, now: int)
    requires ev.httpMethod == "POST" && RoutePath(ev) == "/analyze"
    requires HasBody(ev) && parseJson(ev.body.value).Some?
    requires Truthy(parseJson(ev.body.value).value) && !ApiAccepted(parseJson(ev.body.value).value)
    ensures Handle(ev, apiKey, parseJson, model, parse, now).statusCode == 500
    ensures Handle(ev, apiKey, parseJson, model, parse, now).body.InternalError?
  {
    ApiParseAcceptsExactly(parseJson(ev.body.value).value);
  }

  /** The request headers never influence the response: the client IP is computed but not used. */
  lemma ResponseIgnoresHeaders(
      ev: Event, headers: map<string, string>, apiKey: string, parseJson: string -> Option<Json>,
      model: ApiIdea -> Gemini.Reply, parse: string -> Option<Gemini.BrutalAnalysis>, now: int)
    ensures Handle(ev.(headers := headers), apiKey, parseJson, model, parse, now)
         == Handle(ev, apiKey, parseJson, model, parse, now)
  {
  }

  /** The function is reachable under its deployed prefix and under the bare route alike. */
  lemma PrefixedPathRoutesAlike(
      ev: Event, route: string, apiKey: string, parseJson: string -> Option<Json>,
      model: ApiIdea -> Gemini.Reply, parse: string -> Option<Gemini.BrutalAnalysis>, now: int)
    requires forall j :: 0 <= j <= |route| ==> !OccursAt(route, FunctionPrefix, j)
    ensures Handle(ev.(path := FunctionPrefix + route), apiKey, parseJson, model, parse, now)
         == Handle(ev.(path := route), apiKey, parseJson, model, parse, now)
  {
    var full := FunctionPrefix + route;
    assert full[..|FunctionPrefix|] == FunctionPrefix;
    ReplaceLeadingPattern(full, FunctionPrefix);
    assert full[|FunctionPrefix|..] == route;
    ReplaceAbsentPattern(route, FunctionPrefix);
  }
}
