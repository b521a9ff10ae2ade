/**
 * The server's analysis service: the structure check applied to the
 * language model's reply, and the transform of the model's "brutal
 * analysis" into the stored validation result shape.  The model call itself
 * and JSON.parse are parameters.
 */
module Gemini {
  import opened Wrappers
  import opened Strings

  /** One scored section of the model's analysis. */
  datatype Section = Section(score: int, analysis: string)

  /** The analysis object the model returns.  An absent `verdict` is represented
      by "" and an absent `overall_score` by 0: both are falsy in the source. */
  datatype BrutalAnalysis = BrutalAnalysis(
    verdict: string,
    overallScore: int,
    marketReality: Section,
    competitionAnalysis: Section,
    technicalFeasibility: Section,
    monetizationReality: Section,
    fatalFlaws: seq<string>,
    timeSavedHours: int)

  /** The stored result shape (`ValidationAnalysis`). */
  datatype ValidationAnalysis = ValidationAnalysis(
    score: int,
    verdict: string,
    strengths: seq<string>,
    weaknesses: seq<string>,
    opportunities: seq<string>,
    detailedAnalysis: string,
    actionItems: seq<string>)

  /** What the model call produced: its response text (possibly undefined), or the error it threw. */
  type Reply = Result<Option<string>, string>

  const ErrorPrefix := "Failed to brutally analyze app idea: "
  const EmptyResponse := "Empty response from Gemini API"
  const InvalidStructure := "Invalid response structure from Gemini API"

  /** The structural acceptance check: a verdict and a score must both be truthy. */
  predicate WellFormed(a: BrutalAnalysis)
  {
    a.verdict != "" && a.overallScore != 0
  }

  /** `brutallyAnalyzeAppIdea` after the model call: reject an empty text, a parse
      failure or a malformed analysis, each with the wrapped message. */
  function BrutallyAnalyze(reply: Reply, parse: string -> Result<BrutalAnalysis, string>): (r: Result<BrutalAnalysis, string>)
    ensures r.Success? <==>
      && reply.Success? && reply.value.Some? && reply.value.value != ""
      && parse(reply.value.value).Success? && WellFormed(parse(reply.value.value).value)
    ensures r.Success? ==> r.value == parse(reply.value.value).value && WellFormed(r.value)
    ensures r.Failure? ==> IsPrefix(ErrorPrefix, r.error)
    ensures reply.Success? && (reply.value.None? || reply.value.value == "") ==>
      r == Failure(ErrorPrefix + EmptyResponse)
    // A thrown model call or a failed parse is reported with its own message after the prefix.
    ensures reply.Failure? ==> r == Failure(ErrorPrefix + reply.error)
    ensures (reply.Success? && reply.value.Some? && reply.value.value != ""
             && parse(reply.value.value).Failure?) ==> r == Failure(ErrorPrefix + parse(reply.value.value).error)
  {
    match reply
    case Failure(msg) => Failure(ErrorPrefix + msg)
    case Success(text) =>
      if text.None? || text.value == "" then Failure(ErrorPrefix + EmptyResponse)
      else match parse(text.value)
        case Failure(msg) => Failure(ErrorPrefix + msg)
        case Success(a) =>
          if !WellFormed(a) then Failure(ErrorPrefix + InvalidStructure)
          else Success(a)
  }

  /** "Address fatal flaw {i+1}: {flaw}". */
  function ActionItem(i: nat, flaw: string): string
  {
    "Address fatal flaw " + NatToString(i + 1) + ": " + flaw
  }

  /** One action item per flaw, in order, numbered from `from` + 1. */
  function ActionItems(flaws: seq<string>, from: nat := 0): (items: seq<string>)
    ensures |items| == |flaws|
    ensures forall i :: 0 <= i < |flaws| ==> items[i] == ActionItem(from + i, flaws[i])
    decreases |flaws|
  {
    if flaws == [] then []
    else [ActionItem(from, flaws[0])] + ActionItems(flaws[1..], from + 1)
  }

  /** The four sections, labelled, in the fixed order Market, Competition, Technical, Monetization. */
  function DetailedAnalysis(a: BrutalAnalysis): string
  {
    "Market Reality: " + a.marketReality.analysis
    + "\n\nCompetition: " + a.competitionAnalysis.analysis
    + "\n\nTechnical: " + a.technicalFeasibility.analysis
    + "\n\nMonetization: " + a.monetizationReality.analysis
  }

  /** The transform in `validateAppIdea`. */
  function ToValidation(a: BrutalAnalysis): (v: ValidationAnalysis)
    ensures v.score == a.overallScore
    ensures v.verdict == "BUILD" <==> a.verdict == "BUILD"
    ensures v.verdict == "BUILD" || v.verdict == "BAIL"
    ensures a.verdict != "BUILD" ==> v.strengths == [] && v.opportunities == []
    ensures a.verdict == "BUILD" ==>
      v.strengths == [FirstSentence(a.marketReality.analysis), FirstSentence(a.technicalFeasibility.analysis)]
    ensures a.verdict == "BUILD" ==>
      v.opportunities == [FirstSentence(a.monetizationReality.analysis), FirstSentence(a.competitionAnalysis.analysis)]
    ensures v.weaknesses == a.fatalFlaws
    ensures |v.actionItems| == |a.fatalFlaws|
    ensures forall i :: 0 <= i < |a.fatalFlaws| ==> v.actionItems[i] == ActionItem(i, a.fatalFlaws[i])
    ensures v.detailedAnalysis == DetailedAnalysis(a)
  {
    var build := a.verdict == "BUILD";
    ValidationAnalysis(
      a.overallScore,
      if build then "BUILD" else "BAIL",
      if build then [FirstSentence(a.marketReality.analysis), FirstSentence(a.technicalFeasibility.analysis)] else [],
      a.fatalFlaws,
      if build then [FirstSentence(a.monetizationReality.analysis), FirstSentence(a.competitionAnalysis.analysis)] else [],
      DetailedAnalysis(a),
      ActionItems(a.fatalFlaws))
  }

  /** `validateAppIdea`: analyse, then transform; a failed analysis propagates its error. */
  function ValidateAppIdea(reply: Reply, parse: string -> Result<BrutalAnalysis, string>): (r: Result<ValidationAnalysis, string>)
    ensures r.Success? <==> BrutallyAnalyze(reply, parse).Success?
    ensures r.Success? ==> r.value == ToValidation(BrutallyAnalyze(reply, parse).value)
    ensures r.Failure? ==> r.error == BrutallyAnalyze(reply, parse).error
  {
    match BrutallyAnalyze(reply, parse)
    case Failure(msg) => Failure(msg)
    case Success(a) => Success(ToValidation(a))
  }

  /** Each strength and opportunity is the opening of its section's analysis, up to the first '.'. */
  lemma HighlightsAreFirstSentences(a: BrutalAnalysis, i: nat)
    requires a.verdict == "BUILD" && i < 2
    ensures var v := ToValidation(a);
      && |v.strengths| == 2 && |v.opportunities| == 2
      && '.' !in v.strengths[i] && '.' !in v.opportunities[i]
      && IsPrefix(v.strengths[i], if i == 0 then a.marketReality.analysis else a.technicalFeasibility.analysis)
      && IsPrefix(v.opportunities[i], if i == 0 then a.monetizationReality.analysis else a.competitionAnalysis.analysis)
  {
  }

  /** The numbered action items name distinct flaw numbers, so item i can only be flaw i. */
  lemma {:induction false} ActionItemsNumberedDistinctly(i: nat, j: nat, f: string, g: string)
    requires ActionItem(i, f) == ActionItem(j, g)
    ensures i == j && f == g
  {
    var p := "Address fatal flaw ";
    var si, sj := NatToString(i + 1), NatToString(j + 1);
    var x, y := ActionItem(i, f), ActionItem(j, g);
    assert x == p + si + ": " + f;
    assert y == p + sj + ": " + g;
    // The digits end where the first ':' after the prefix stands.
    DigitsThenColon(p, si, ": " + f);
    DigitsThenColon(p, sj, ": " + g);
    var k := if |si| < |sj| then |si| else |sj|;
    assert x[|p| + k] == y[|p| + k];
    assert |si| == |sj|;
    assert si == x[|p|..|p| + |si|] == y[|p|..|p| + |sj|] == sj;
    NatToStringInjective(i + 1, j + 1);
    assert f == x[|p| + |si| + 2..] == y[|p| + |sj| + 2..] == g;
  }

  lemma DigitsThenColon(p: string, digits: string, rest: string)
    requires |rest| > 0 && rest[0] == ':'
    ensures (p + digits + rest)[|p| + |digits|] == ':'
    ensures (p + digits + rest)[|p|..|p| + |digits|] == digits
    ensures (p + digits + rest)[|p| + |digits| + 1..] == rest[1..]
    ensures forall k :: 0 <= k <= |digits| ==>
      (p + digits + rest)[|p| + k] == if k < |digits| then digits[k] else ':'
  {
  }

  /** The detailed analysis opens with the market section and closes with the monetization section. */
  lemma DetailedAnalysisFrame(a: BrutalAnalysis)
    ensures var d := DetailedAnalysis(a); var m := "Market Reality: " + a.marketReality.analysis;
      && IsPrefix(m, d)
      && d[|d| - |a.monetizationReality.analysis|..] == a.monetizationReality.analysis
      && |d| == 16 + 15 + 13 + 16
           + |a.marketReality.analysis| + |a.competitionAnalysis.analysis|
           + |a.technicalFeasibility.analysis| + |a.monetizationReality.analysis|
  {
    var d := DetailedAnalysis(a);
    var m := "Market Reality: " + a.marketReality.analysis;
    var rest := "\n\nCompetition: " + a.competitionAnalysis.analysis
      + "\n\nTechnical: " + a.technicalFeasibility.analysis
      + "\n\nMonetization: " + a.monetizationReality.analysis;
    assert d == m + rest;
    assert d[..|m|] == m;
  }

  /** An empty reply, a missing verdict or a zero score never reaches the transform. */
  lemma RejectedReplies(reply: Reply, parse: string -> Result<BrutalAnalysis, string>)
    requires reply.Success? && reply.value.Some? && reply.value.value != ""
    requires parse(reply.value.value).Success?
    requires parse(reply.value.value).value.verdict == "" || parse(reply.value.value).value.overallScore == 0
    ensures ValidateAppIdea(reply, parse) == Failure(ErrorPrefix + InvalidStructure)
  {
  }
}
