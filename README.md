# BuildOrBail in Dafny

BuildOrBail takes a description of an app idea. It asks a language model for
a harsh critique, turns the critique into a verdict (BUILD or BAIL) with a
score, and stores the idea and its result in two tables, `app_ideas` and
`validation_results`. A third table, `rate_limits`, counts each client IP's
requests per hour. The application is served two ways:

- an Express server, whose routes go through the analysis service and the
  storage class;
- a stand-alone Netlify function, which calls the model directly and stores
  nothing.

This project models the logic around the model call and proves what it
promises. The modules, one file each, are:

- `Wrappers`: `Option` and `Result`.
- `Strings`: the JavaScript string operations the code uses.
  - `.length` is `Utf16Length`: JavaScript counts UTF-16 code units, so a
    character above U+FFFF counts twice. Zod's `.min(n)` compares this length.
  - `split('.')[0]` is `FirstSentence`.
  - `substring(0, n)` is `Truncate`, which also counts code units.
  - `replace` with a string pattern is `ReplaceFirst`.
  - Rendering a number as text is `NatToString` / `IntToString`. The
    round-trip lemma is about `NatToString`. `IntToString` is `NatToString`
    for a non-negative number, and a '-' followed by `NatToString` of the
    magnitude for a negative one.
- `Json`: parsed JSON values and JavaScript truthiness.
- `Zod`: object validation as the two request schemas use it. Fields are
  checked in shape order, each failing field gives one issue, and unknown
  keys are dropped.
- `Schema`: the `app_ideas` and `validation_results` rows, their insert
  shapes and defaults, and the idea insert schema.
  - The schema has an iff lemma against a field-by-field acceptance
    predicate.
- `Gemini`: the server's analysis service.
  - The structure check on the model's reply.
  - The transform of the model's analysis into the stored result.
- `Queries`: the storage read queries as pure functions (left join, order by
  `createdAt` descending, limit, filter), with lemmas about what they list
  and what they omit.
- `RateLimit`: the per-IP sliding one-hour window with a ceiling of five
  requests.
  - `Check` and `Update` are over the `rate_limits` rows.
  - `Replay` runs a sequence of updates.
- `Storage`: `DatabaseStorage`, a class holding the three tables.
  - Inserts append a row under a fresh id.
  - `UpdateRateLimit` bumps the IP's open-window row in place, or appends a
    new row when the IP has no open window.
  - Reads call the query functions.
  - The class invariant `Valid()` says primary keys are distinct and every
    result references a stored idea.
- `Routes`: the Express handlers as methods over a `DatabaseStorage`. They
  run the storage writes in the source's order.
- `NetlifyApi`: the Netlify handler as one pure function from an event to a
  response.

Outside inputs are parameters of the operations that consume them:

- the clock, as an integer `now`;
- the model's reply: a `Result` of an optional text, or the message of what
  was thrown;
- JSON.parse of that reply: a function from text to a parsed analysis, or an
  error;
- the `GEMINI_API_KEY` variable, as a string;
- whether the database driver throws on a read.

The Netlify function answers a body that fails its schema with 500, not 400
(netlify/functions/api.js:143 and 218-229). The validation error is thrown
inside the `try`, and the `catch` maps every error to 500. The model does the
same.

## Model

| member | source | states |
|---|---|---|
| RateLimit.Check | server/storage.ts:112-137 | With no record of the IP inside the last hour the request is allowed with 4 remaining. With 5 or more counted it is refused with 0 remaining. Otherwise it is allowed with 5 − count − 1 remaining, so the remainder is always between 0 and 4. |
| RateLimit.Update | server/storage.ts:139-167 | The IP's count grows by exactly one. The first in-window record is bumped in place (count + 1, last request = now) and every other record is unchanged. Without such a record, a record with count 1 and window start now is appended. |
| Queries.FindIdea | server/storage.ts:47-51 | The idea with that id, drawn from the table; nothing exactly when no idea has that id. |
| Queries.FindResult | server/storage.ts:63-67 | The validation result with that id, drawn from the table; nothing exactly when no result has that id. |
| RateLimit.FindInWindow | server/storage.ts:115-123 | Returns the first record of the IP whose window start is no older than one hour, or nothing exactly when there is none. |
| RateLimit.UpdateIsolatesIps | server/storage.ts:152-167 | An update for one IP leaves every other IP's count unchanged at every time. |
| RateLimit.StaleRecordsIgnored | server/storage.ts:112-137 | Records whose window started more than an hour ago do not change the check, whether they sit before or after the others. |
| RateLimit.UpdateSkipsStale | server/storage.ts:139-167 | With such records in front, the update leaves them as they are and does to the rest exactly what it does without them. |
| RateLimit.RequestsWithinOneWindow | server/storage.ts:112-167 | From an empty table, k updates inside one window give a count of k. The next check in that window allows exactly when k < 5, with 4 − k remaining. |
| RateLimit.ReplayOnOpenWindow | server/storage.ts:152-159 | On a table that holds only the IP's open-window record, updates inside that window keep the table at that one record and add one to its count per update. |
| Storage.DatabaseStorage.UpdateRateLimit | server/storage.ts:139-167 | The new `rate_limits` table is `RateLimit.Update` of the old one. The IP's count grows by one, and ideas and results are untouched. A fresh id is used only when a record is inserted. |
| Storage.DatabaseStorage.CreateAppIdea | server/storage.ts:30-45 | Appends the idea under a fresh id with the insertion time, and returns that row. |
| Storage.ForeignKeyAppended | shared/schema.ts:20 | A result whose `appIdeaId` names a stored idea keeps every result's reference intact. |
| Storage.DatabaseStorage.CreateValidationResult | server/storage.ts:55-61 | Appends the result exactly when an idea with its `appIdeaId` exists. Otherwise it fails with the foreign-key error and changes nothing. |
| Queries.AllValidationResults | server/storage.ts:79-95 | At most 100 rows. Each row is a stored result paired with the stored idea its `appIdeaId` names, and the rows are ordered by `createdAt`, newest first. |
| Queries.OmittedResultsAreOlder | server/storage.ts:79-95 | A stored result missing from the listing means the listing is full (100 rows), and every listed row is at least as new as it. |
| Queries.ListingIsCompleteWhenSmall | server/storage.ts:79-95 | When every result has its idea and there are at most 100 results, every stored result is listed. |
| Queries.BailVerdicts | server/storage.ts:172-189 | At most `limit` rows (default 50). Every row has verdict "BAIL" and is paired with its idea, newest first. |
| Queries.OmittedBailVerdictsAreOlder | server/storage.ts:172-189 | With intact foreign keys, a BAIL result missing from the listing means `limit` rows are listed, each at least as new as it. |
| Queries.BailVerdictsCompleteWhenFew | server/storage.ts:172-189 | With intact foreign keys and at most `limit` BAIL results, every BAIL result is listed. |
| Queries.ForeignKeysOfVerdict | server/storage.ts:177 | Filtering by verdict keeps every remaining result's idea reference intact. |
| Queries.Listing | server/storage.ts:80-94 | At most `n` rows, newest first, each a stored result paired with the stored idea its `appIdeaId` names. |
| Queries.ListingOmitsOnlyOlder | server/storage.ts:80-94 | With intact foreign keys, a result missing from a listing of limit `n` means `n` rows are listed, each at least as new as it. |
| Queries.ListingKeepsAllWhenShort | server/storage.ts:80-94 | With intact foreign keys and at most `n` results, every result is listed. |
| Queries.ListingFollowsSortedJoin | server/storage.ts:80-94 | With intact foreign keys, the listing is the first `n` rows of the sorted join, position by position. |
| Queries.Take | server/storage.ts:85 | Exactly `n` rows when there are more, otherwise all of them, each the input's row at the same position. |
| Queries.OfVerdict | server/storage.ts:177 | Keeps exactly the results with the given verdict, as a sub-multiset of the input. |
| Queries.ResultWithIdeaById | server/storage.ts:97-110 | Nothing exactly when the result with that id or its idea is missing. Otherwise that result with its idea as `appIdea`. |
| Queries.SortNewestFirst | server/storage.ts:84 | A permutation of the rows ordered by `createdAt`, newest first. |
| Queries.LeftJoin | server/storage.ts:83 | One row per result, in order, each with the idea its `appIdeaId` finds, if any. |
| Queries.WithIdeas | server/storage.ts:87-94 | At most as many rows as given, each one a given row whose idea is present. |
| Queries.WithIdeasAppend | server/storage.ts:87-94 | The filter works row by row: on a concatenation it gives the concatenation of its results, so the order is kept. |
| Queries.WithIdeasSingle | server/storage.ts:87-94 | A single row is kept, paired with its idea, exactly when its idea is present. |
| Queries.WithIdeasKeepsPresent | server/storage.ts:87-94 | Every row whose idea is present is kept. |
| Queries.WithIdeasKeepsOrder | server/storage.ts:87-94 | Dropping the rows without an idea keeps the newest-first order. |
| Queries.WithIdeasKeepsAll | server/storage.ts:87-94 | When every row has its idea, each row is kept at its position. |
| Gemini.BrutallyAnalyze | server/services/gemini.ts:145-161 | A reply is accepted exactly when it has a non-empty text that parses to an analysis with a truthy verdict and a non-zero score. Every error message carries the "Failed to brutally analyze app idea: " prefix. After it comes the thrown model call's message, the parse error's message, or "Empty response from Gemini API" for an empty text. |
| Gemini.RejectedReplies | server/services/gemini.ts:152-155 | A parsed analysis with no verdict or a zero score fails with "Invalid response structure from Gemini API". |
| Gemini.ToValidation | server/services/gemini.ts:169-183 | The score is unchanged, and the verdict is BUILD iff the input's is BUILD, else BAIL. Strengths and opportunities are empty unless the verdict is BUILD; then they are the first sentences of the market/technical and monetization/competition sections. Weaknesses equal the fatal flaws, action item i is "Address fatal flaw {i+1}: {flaw i}", and the analysis is the four sections in fixed order. |
| Gemini.ValidateAppIdea | server/services/gemini.ts:164-186 | Succeeds exactly when the analysis is accepted, and then yields its transform. Otherwise it propagates the analysis error unchanged. |
| Gemini.HighlightsAreFirstSentences | server/services/gemini.ts:172-180 | For a BUILD verdict there are exactly two strengths and two opportunities. Each is a prefix of its section's analysis and contains no '.'. |
| Gemini.ActionItemsNumberedDistinctly | server/services/gemini.ts:182 | Two action items are equal only when they carry the same number and the same flaw. |
| Gemini.ActionItems | server/services/gemini.ts:182 | One item per flaw, item i numbered i + 1. |
| Gemini.DetailedAnalysisFrame | server/services/gemini.ts:181 | The text opens with "Market Reality: " and the market analysis, ends with the monetization analysis, and is 60 characters of labels longer than the four analyses together. |
| Strings.Utf16Length | netlify/functions/api.js:14-16 | `s.length`: between one and two code units per character. |
| Strings.Utf16LengthAppend | netlify/functions/api.js:14-16 | The length of a concatenation is the sum of the lengths of its parts. |
| Strings.Utf16LengthBasicPlane | netlify/functions/api.js:14-16 | The length equals the number of characters exactly when no character lies above U+FFFF. |
| Strings.NatToString | server/services/gemini.ts:182 | The rendering of `index + 1`: a non-empty string of decimal digits, with a leading '0' only for zero. |
| Strings.IntToString | netlify/functions/api.js:174 | `String(score)`: a leading '-' exactly for a negative number, followed by the digits of its magnitude. |
| Strings.FirstSentence | server/services/gemini.ts:173 | `split('.')[0]`: the longest prefix without '.', which ends at the end of the text or just before its first '.'. |
| Strings.Truncate | netlify/functions/api.js:166-172 | `substring(0, n)`: a prefix of at most `n` UTF-16 code units, the whole text when it fits, and otherwise one the next character would not fit onto. |
| Strings.TruncateBasicPlane | netlify/functions/api.js:166-172 | On a text with no character above U+FFFF, the cut keeps exactly the first `n` characters. |
| Strings.ReplaceFirst | netlify/functions/api.js:109 | A text without the pattern is unchanged. Otherwise only the first occurrence is replaced. |
| Strings.NatToStringRoundTrip | server/services/gemini.ts:182 | Reading back the decimal rendering of a number gives the number. |
| Schema.ParseInsertAppIdea | shared/schema.ts:31-38 | A rejected submission always carries at least one issue. |
| Schema.ParseAcceptsExactly | shared/schema.ts:6-16 | The schema accepts exactly the objects with string appName, description and targetMarket, absent, null or string userName, budget, features and competition, and `agreeToTerms` equal to `true`. |
| Schema.ParseKeepsFields | shared/schema.ts:31-38 | An accepted submission has a consent of `true` and carries the body's own appName, description and targetMarket strings. Each of userName, budget, features and competition is the body's string when the body holds one, and nothing when the key is absent or null. |
| Schema.TermsDeclinedRejected | shared/schema.ts:35-37 | `agreeToTerms: false` is rejected with "You must agree to receive brutally honest feedback". |
| Schema.MissingDescriptionRejected | shared/schema.ts:10 | A submission without a description is rejected with an issue naming that field. |
| Schema.ParseIgnoresForeignKeys | shared/schema.ts:31-34 | Keys outside the schema, `id` and `createdAt` included, do not change the outcome. |
| Schema.NewResult | shared/schema.ts:18-29 | The stored result takes its columns from the insert. The four list columns default to the empty list, and the id and creation time come from the database. |
| Schema.NewIdea | shared/schema.ts:6-16 | The stored idea has the supplied columns, a generated id and the insertion time. |
| Zod.RequiredString | shared/schema.ts:8 | Succeeds exactly when the key holds a string of the minimum length, that string. An absent key is reported as required. |
| Zod.OptionalString | shared/schema.ts:9 | Absent (or null, when nullable) gives nothing, a string gives itself, and anything else is an invalid type. |
| Zod.TrueBoolean | shared/schema.ts:35-37 | Succeeds exactly on `true`. `false` gives the refinement's own message. |
| Routes.PostValidate | server/routes.ts:11-57 | A rejected body gives 400 "Invalid input data" with the issues, and nothing is stored. Otherwise the idea without `agreeToTerms` is stored first. A failed analysis then gives 500 with its message and leaves the new idea with no result. A successful one stores the result built from the idea and the analysis (`Routes.StoredResultMirrorsAnalysis` says what it carries), answers 200 with that result plus `appIdea`, and that answer can be fetched back by its id. |
| Routes.StoreAndAnalyse | server/routes.ts:20-41 | Stores the idea before the analysis runs. A failed analysis answers 500 with its message, and the idea stays stored with no result. A successful one stores the result under the next id and answers 200 with it and the idea, and that answer is what a lookup of its id returns. |
| Routes.StoredResultMirrorsAnalysis | server/routes.ts:26-35 | The stored result's `appIdeaId` is the created idea's id, and its score, verdict, lists and analysis text are the analysis's own. |
| Routes.ValidateErrorResponse | server/routes.ts:43-56 | 400 exactly for a validation error, with "Invalid input data" and its issues. Any other thrown error gives 500 with its message, and a non-error gives "Failed to validate app idea". |
| Routes.FreshRowIsFound | server/routes.ts:26-41 | A result appended under a fresh id, with its freshly stored idea, is what the lookup of that id returns. |
| Routes.GetResult | server/routes.ts:60-76 | 404 "Validation result not found" when storage has no such result with its idea, 200 with the stored record otherwise, and 500 when the driver throws. |
| Routes.GetResults | server/routes.ts:79-89 | 200 with the listing of all results: at most 100, newest first, each a stored result. 500 when the driver throws. |
| NetlifyApi.Handle | netlify/functions/api.js:96-230 | Every response carries the three CORS headers. OPTIONS gives 200 with an empty body on any path. Otherwise, after the function prefix is removed from the path, a body that does not parse gives 400 before any route. Then POST /analyze is handled, GET /analytics and GET /results or /wall-of-shame give 200, and anything else gives 404 "Route not found". |
| NetlifyApi.HandleAnalyze | netlify/functions/api.js:127-181 | A missing or falsy body gives 400 "Request body is required", and a body the schema rejects gives 500 with its issues. A failed analysis gives 500 with its message. 200 is answered exactly when the body validates and the analysis succeeds, with the shaped analysis. |
| NetlifyApi.RoutePath | netlify/functions/api.js:109 | A path that starts with `/.netlify/functions/api` loses that prefix, and a path without it is kept as it is. |
| NetlifyApi.ParseApiIdea | netlify/functions/api.js:13-21 | A rejected body always carries at least one issue. |
| NetlifyApi.ApiParseAcceptsExactly | netlify/functions/api.js:13-21 | Accepts exactly the objects whose appName, description and targetMarket are strings of at least 1, 10 and 1 UTF-16 code units, and whose budget, userName, features and competition are absent or strings. Every accepted value is the body's own string, and an absent optional field gives nothing. |
| NetlifyApi.ShortDescriptionRejected | netlify/functions/api.js:16 | A description under ten UTF-16 code units is rejected with a minimum-length issue on that field. |
| NetlifyApi.AstralDescriptionLongEnough | netlify/functions/api.js:16 | Five characters above U+FFFF are ten code units, so such a description passes its length check. |
| NetlifyApi.ValidationFailureIsInternalError | netlify/functions/api.js:218-229 | A POST /analyze body that parses but fails the schema gives 500, not 400. |
| NetlifyApi.ClientIp | netlify/functions/api.js:137-140 | The first non-empty of x-forwarded-for, x-real-ip and client-ip, else "unknown". It is never empty. |
| NetlifyApi.ResponseIgnoresHeaders | netlify/functions/api.js:137-146 | The response does not depend on the request headers: the client IP is computed but not used. |
| NetlifyApi.AnalyzeAppIdea | netlify/functions/api.js:28-94 | Without an API key it fails with "GEMINI_API_KEY environment variable is required". A thrown model call passes its message on, an empty text gives "Empty response from AI", and a text that does not parse gives "Invalid JSON response from AI". It succeeds exactly when there is a key and a non-empty text that parses, with that parse, and performs no structure check. |
| NetlifyApi.AcceptsMalformedAnalysis | netlify/functions/api.js:83-93 | A parsed analysis with no verdict or a zero score is still accepted. |
| NetlifyApi.ShapeAnalysis | netlify/functions/api.js:150-180 | Echoes the idea, passes score, verdict and the raw analysis through, and reports 4 remaining. Strengths and opportunities are empty unless the verdict is BUILD; then there are two each, each `Truncate` of its section to 100 code units. Weaknesses equal the fatal flaws, action item i is "Fatal Flaw {i+1}: {flaw i}", and the analysis uses the literal `\n\n` separator. |
| NetlifyApi.VerdictPassedThrough | netlify/functions/api.js:164 | A "CAUTION" verdict reaches the client unchanged, while the server's transform maps it to BAIL. |
| NetlifyApi.HighlightsArePrefixes | netlify/functions/api.js:165-173 | For BUILD, each of the four highlights is a prefix of its section's analysis, at most 100 UTF-16 code units long, and the whole analysis when that is at most 100 code units long. |
| NetlifyApi.ApiDetailedAnalysisLineBreaks | netlify/functions/api.js:174 | The section separator is the literal four-character text backslash, n, backslash, n. The detailed analysis contains a line break only when one of the four analyses does. |
| NetlifyApi.FlawItems | netlify/functions/api.js:175 | One item per flaw, item i numbered i + 1. |
| NetlifyApi.Internal | netlify/functions/api.js:218-229 | 500 with the thrown error's message, and "Unknown error" when the message is empty. |
| NetlifyApi.StatusCodes | netlify/functions/api.js:96-230 | The status is one of 200, 400, 404 and 500. 404 only comes for a non-OPTIONS request outside the route table. |
| NetlifyApi.PrefixedPathRoutesAlike | netlify/functions/api.js:109 | A route reached under `/.netlify/functions/api` behaves as the bare route. |

## Left out

- The language model calls, in `brutallyAnalyzeAppIdea` and in the Netlify function's `analyzeAppIdea`. Both are foreign network calls. Their reply is a parameter: a text, an absent text, or a thrown error's message. The prompt text they build is not modelled.
- JSON.parse is a parameter, both for request bodies and for the model's text. So are the shape of the parsed analysis and the TypeError a missing analysis field would throw in the transforms.
- The drizzle/Neon driver, its pool and its WebSocket configuration. The tables are in-memory sequences.
- Database failures. Only the foreign-key rejection of a result insert is modelled, plus, in `GET /api/results/:id` and `GET /api/results`, a flag saying the driver threw. A driver error in `POST /api/validate` would reach the same 500 branch as an analysis error.
- `Storage.DatabaseStorage.GetAppIdea`, `GetValidationResult`, `GetValidationResultWithIdea`, `GetAllValidationResults`, `GetBailVerdicts` and `CheckRateLimit` carry no contract of their own beyond what they return: each applies one query function to the current tables (`Queries.FindIdea`, `Queries.FindResult`, `Queries.ResultWithIdeaById`, `Queries.AllValidationResults`, `Queries.BailVerdicts` and `RateLimit.Check` respectively), and those functions carry the contracts. `getValidationResultByAppIdeaId` is not part of this model; no handler uses it.
- Generated ids: a uuid in `app_ideas`/`validation_results`. All ids are modelled as one increasing natural-number counter.
- `rate_limits`: server/storage.ts:7,10 import the `RateLimit` type and the `rateLimits` table from shared/schema.ts, but that file defines neither. The columns (`id`, `userIp`, `requestCount`, `windowStart`, `lastRequest`) are inferred from their uses in server/storage.ts:115-166. The id is drawn from the same counter. The `windowStart` and `lastRequest` of a new record are taken to be the insertion time.
- `createAppIdea` also passes a `userIp` that `app_ideas` has no column for. It is dropped.
- Wall-clock time (`Date.now()`, `new Date()`, `defaultNow()`) is an integer parameter. The Netlify function reads the clock several times; the model uses one reading. The string and ISO renderings of the time are not modelled: the echoed ids and timestamps are that integer.
- Scores are stored in a `real` column and come from the model as JavaScript numbers. They are modelled as integers, so fractional scores and NaN are left out. Of the number arithmetic, only the falsy-zero structure check is kept.
- Gemini.BrutallyAnalyze: a non-Error thrown inside the service, reported as "Unknown error", is covered only as a reply error whose message is that text.
- The order between results with equal `createdAt` is not specified by the query. The model sorts stably, and the contracts promise only the ordering and the permutation.
- drizzle-zod's exact string rules are not modelled. The insert schema requires the not-null text columns to be strings, with no length bound.
- Zod's issue message texts are not modelled, except the refinement message for `agreeToTerms`. A ZodError's message, its serialised issue list, is represented by the list itself.
- Races between `checkRateLimit` and `updateRateLimit` under concurrent requests are not modelled. The model is sequential. Neither route calls the rate limiter.
- The constant analytics payload of the Netlify function is a single body value; its numbers are hard-coded data.
- RateLimit.FindInWindow: the select at server/storage.ts:115-124 and :142 has no ORDER BY, so the database may return any matching row; the model takes the first match in table order. The choice cannot matter in practice: `windowStart` is never updated and a row is inserted only when no window is open, so with non-decreasing request times an IP has at most one open window.
- Strings.Truncate: when the cut falls between the two halves of a surrogate pair, `substring` keeps the lone first half. A Dafny string cannot hold half a character, so the model drops the whole character, and the result is one code unit shorter than JavaScript's.
- NetlifyApi.ShapeAnalysis: its strengths and opportunities inherit the `Strings.Truncate` difference for a character above U+FFFF that straddles the 100th code unit.
- NetlifyApi.HighlightsArePrefixes: a highlight whose cut splits a surrogate pair is the model's shorter prefix, not JavaScript's text with a lone surrogate.
- The React client, `queryClient.ts`, the test scripts and the echo function are not part of this model.
