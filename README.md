# Link analysis and rubric scoring for the apostila reviewer

The apostila reviewer checks educational documents ("apostilas") against a catalogue of
pedagogical criteria. It has two dashboards, a student one and a professor one. Each sends
the document's text and the automatic criteria to a generative model. It reads a JSON
verdict out of the model's reply and merges that verdict with the full catalogue into a
scored report. The user can then override single verdicts and ask for correction
suggestions. A small backend endpoint, `/api/analyze-links`, takes a list of links and does
the following for each one:

- It cleans the link.
- It classifies the link as a YouTube video, a social-network page or a generic page.
- It fetches the content. YouTube metadata is fetched with a bounded exponential-backoff
  retry.
- It asks the model for a short description and returns one record per link.

This project is a Dafny model of that logic, in these modules:

- `Text` models the JavaScript string operations the code relies on: `indexOf`,
  `lastIndexOf`, `substring`, `trim`, global `replace` of a literal, number formatting,
  `join`, and splitting on newlines.
- `Retry` models `retry`. It is a loop with an attempt counter and a doubling delay. The
  loop is proved equal to a specification function that records the outcome, the number of
  calls and the sleeps.
- `UrlHelpers` models `cleanUrl`, `getYouTubeVideoId` and `isSocialMediaLink`.
  - The video-id regular expression is modelled as a leftmost-match search. It has one
    matcher per alternative of the pattern.
  - `new URL(…).hostname` is an oracle that may fail.
- `ModelReply` models how a model reply is cleaned and scanned:
  - fence stripping;
  - the guarded brace scan (first `{` to last `}`, with `end > start`);
  - the unguarded scan of the student suggestion path.
- `Rubric` covers what both dashboards share:
  - catalogue filtering and the prompt's criteria list;
  - the `Math.round` score;
  - the merge of the model's items with the catalogue;
  - the override (`handleStatusUpdate`'s map) and the student rescoring.
- `LinkAnalysis` models the per-link handler and the endpoint.
  - YouTube, Perplexity and Gemini are oracles that succeed with a value or fail with a
    message. `JSON.parse` is also an oracle.
  - Each link's run records the calls it made and the sleeps it took.
- `DashboardState` holds the upload (`extractTextFromFile`), the model oracles, and the
  analysis call shared by the two dashboards.
- `AnalysisDashboard` and `ProfessorDashboard` each have the following:
  - the catalogue, with its ids and its count of automatic criteria;
  - the suggestion path;
  - a `Dashboard` class whose fields are the component's state (`analysisResult`,
    `fileContent`, `suggestion`, the modal and loading flags). Its methods are the event
    handlers.

The code differs from the system's design description in the following places. The model
follows the code.

- The initial score counts every `'Aprovado'` item in the reply, duplicates and manual ids
  included. It can therefore exceed 100 (`Rubric.InitialScoreCanExceedHundred`).
- A manual criterion approved by the model raises the initial score. On the student
  dashboard any later override drops it again, because the override rescores
  (`Rubric.ManualApprovalCountedOnlyFirst`). The professor dashboard never rescores, so
  there the inflated score stays after overrides.
- The professor dashboard does not rescore after an override.
- Generic links are fetched once, with no retry.
- A YouTube "video not found" answer is retried like a transport error.
- Links are not deduplicated.
- A non-string entry in `links` makes `cleanUrl` throw inside the batch. The whole request
  then answers 500, so one bad entry aborts every link.
- `cleanUrl` is not idempotent (`UrlHelpers.CleanUrlNotIdempotent`).

## Model

| member | source | states |
|---|---|---|
| Retry.Retry | backend/server.js:34-45 | The loop's outcome, number of calls and sleep sequence are exactly those of the retry specification `RetryRun`. |
| Retry.RetrySucceedsAfterFailures | backend/server.js:35-42 | If `fn` fails on attempts 1..k and succeeds on k+1, with k < retries, then retry returns that value after exactly k+1 calls. It sleeps delay, 2·delay, … k times. |
| Retry.RetryExhausted | backend/server.js:35-42 | If every attempt fails, there are exactly `retries` calls and the last attempt's error is rethrown. There are retries-1 sleeps, doubling each time, and none after the last attempt. |
| Retry.RetryNotAttempted | backend/server.js:35 | With retries = 0 the body never runs: no call, no sleep, result `undefined`. |
| Retry.NthDelayIsPower | backend/server.js:42 | The i-th sleep is delay·2^i. |
| Retry.Backoff | backend/server.js:41-42 | The sleep schedule has one entry per sleep, and entry i is the i-th doubled delay. |
| Retry.DefaultSchedule | backend/server.js:162 | The YouTube call's `retry(…, 3, 1000)` sleeps 1000 then 2000 ms at most. |
| Text.IndexOf | src/components/AnalysisDashboard.jsx:212 | -1 iff the character is absent; otherwise its first position. |
| Text.LastIndexOf | src/components/AnalysisDashboard.jsx:213 | -1 iff the character is absent; otherwise its last position. |
| Text.JsSubstring | src/components/AnalysisDashboard.jsx:215 | The result is a contiguous part of the string and equals the slice when the bounds are ordered and in range. |
| Text.JsSubstringSwapped | src/components/AnalysisDashboard.jsx:134 | With swapped bounds, `substring` returns the slice between them in ascending order. |
| Text.Trim | backend/server.js:56 | The result has no whitespace at either end and sits in the input between two all-whitespace margins. |
| Text.NoFenceAfterRemoval | backend/server.js:211 | After every triple backtick is removed, the text contains no triple backtick. |
| Text.SplitJoin | src/components/AnalysisDashboard.jsx:196 | Joining newline-free lines with `\n` and splitting on newlines gives back the lines. |
| UrlHelpers.DropTrailingPunct | backend/server.js:56 | Exactly one final `.`, `,` or `;` is removed, and only when it is the last character. |
| UrlHelpers.CleanUrlShape | backend/server.js:55-57 | The cleaned link has no whitespace at either end. It is the input minus whitespace margins, and minus at most one final punctuation character. |
| UrlHelpers.CleanUrlKeepsCleanLink | backend/server.js:55-57 | A link with no surrounding whitespace and no final punctuation is left unchanged. |
| UrlHelpers.CleanUrlExamples | backend/server.js:55-57 | `"a.."` gives `"a."`, `"a. "` gives `"a."`, and `" a;"` gives `"a"`. |
| UrlHelpers.CleanUrlNotIdempotent | backend/server.js:55-57 | Cleaning `"a.."` twice differs from cleaning it once. |
| UrlHelpers.FirstMatch | backend/server.js:49-50 | Any position returned starts an id. The search returns none only when no position from the start matches. |
| UrlHelpers.FirstMatchLeftmost | backend/server.js:49-50 | The position the search returns is the id start of a matching position with no match before it: the leftmost match. |
| UrlHelpers.GetYouTubeVideoId | backend/server.js:48-52 | Any id returned is 11 characters, none of them `"`, `&`, `?`, `/` or whitespace, and it occurs in the link. The id is the one captured by the leftmost match. The result is null iff the pattern matches nowhere. |
| UrlHelpers.NoMatchBeforeY | backend/server.js:49 | No match can start before the first `y` of the link, since both literal prefixes begin with `y`. |
| UrlHelpers.ShortLinkId | backend/server.js:49 | `youtu.be/` followed by 11 id characters yields those characters, whatever follows, when no match starts before it. |
| UrlHelpers.FirstOfTwoLinks | backend/server.js:48-52 | Of two short links in one text, the id of the first is returned. |
| UrlHelpers.WatchLinkId | backend/server.js:49 | `youtube.com/watch?v=` followed by 11 id characters yields them when no match starts before it and the rest has no `/`, `?`, `&` or line break. |
| UrlHelpers.PathAcrossLineBreak | backend/server.js:49 | `[^\/]+` runs across a line break: `youtube.com/a\nb/c/` followed by an id yields that id. |
| UrlHelpers.StripWww | backend/server.js:70 | One leading `www.` is removed; otherwise the hostname is unchanged. |
| UrlHelpers.SocialIff | backend/server.js:60-74 | True iff the hostname parses and equals one of the five domains, or `www.` plus one of them. An unparsable link gives false. |
| UrlHelpers.SocialExamples | backend/server.js:60-74 | `m.facebook.com` and `www.www.x.com` are not social, `www.tiktok.com` is, and a parse failure is not. |
| ModelReply.StripFences | backend/server.js:211 | The stripped reply has no whitespace at either end. |
| ModelReply.NoFenceLeft | src/components/AnalysisDashboard.jsx:211 | The stripped reply contains no triple backtick. |
| ModelReply.BraceScanDefined | src/components/AnalysisDashboard.jsx:212-221 | The guarded scan succeeds iff some `{` comes before some `}`. |
| ModelReply.BraceScanPayload | src/components/AnalysisDashboard.jsx:212-216 | The payload starts with `{`, ends with `}` and lies in the text. It contains every span from any `{` to any later `}`. |
| ModelReply.ExtractJsonDefined | src/components/ProfessorDashboard.jsx:114-122 | Extraction from a raw reply succeeds iff its stripped text has a `{` before a `}`. |
| ModelReply.ExtractJsonPayload | src/components/ProfessorDashboard.jsx:114-119 | The extracted payload is braced, lies in the stripped text, has no fence, and covers every braced span of it. |
| ModelReply.LooseScan | src/components/AnalysisDashboard.jsx:130-134 | The unguarded scan succeeds iff both braces occur. |
| ModelReply.SuggestionSliceAgrees | src/components/AnalysisDashboard.jsx:128-138 | When the guarded scan succeeds, the unguarded one returns the same payload. |
| ModelReply.SuggestionSliceReversed | src/components/AnalysisDashboard.jsx:130-135 | When the only `}` precedes the first `{`, the unguarded scan still succeeds. It returns text between them that contains no brace at all. |
| ModelReply.ProseAroundObject | src/components/AnalysisDashboard.jsx:211-216 | A braced object with brace-free prose before and after is extracted exactly. |
| ModelReply.FencedObject | src/components/ProfessorDashboard.jsx:114-118 | A braced object inside a json code fence is extracted exactly. |
| Rubric.IncreasingIdsUnique | src/components/AnalysisDashboard.jsx:30-63 | A catalogue whose ids increase has unique ids. |
| Rubric.AutoCriteria | src/components/AnalysisDashboard.jsx:181 | The filter keeps exactly the automatic criteria, in catalogue order. |
| Rubric.AutoCriteriaAppend | src/components/ProfessorDashboard.jsx:81 | Filtering distributes over concatenation of catalogue parts. |
| Rubric.PromptLines | src/components/AnalysisDashboard.jsx:196 | One prompt line per criterion, in order. |
| Rubric.CriteriaPromptLines | src/components/AnalysisDashboard.jsx:181-196 | The prompt's list splits into exactly one line per automatic criterion, in order. Each line is `id. textForAI`, or `id. displayText` when `textForAI` is absent or empty. |
| Rubric.Score | src/components/AnalysisDashboard.jsx:227 | 0 when there are no automatic criteria. Otherwise the integer nearest to 100·approved/total, with halves rounded up. |
| Rubric.ScoreBounded | src/components/AnalysisDashboard.jsx:227 | The score is at most 100 when approved ≤ total. |
| Rubric.ScoreMonotone | src/components/AnalysisDashboard.jsx:80 | More approvals never lower the score. |
| Rubric.ScoreFourOfSix | src/components/ProfessorDashboard.jsx:130 | 4 approvals of 6 give 67. |
| Rubric.CountApproved | src/components/AnalysisDashboard.jsx:225 | The count of `'Aprovado'` items never exceeds the number of items. |
| Rubric.Find | src/components/AnalysisDashboard.jsx:229 | None iff no item names the id; otherwise the first item that does. |
| Rubric.Merge | src/components/AnalysisDashboard.jsx:228-236 | One entry per catalogue criterion, in catalogue order, each built from that criterion. |
| Rubric.MergeRows | src/components/ProfessorDashboard.jsx:132-141 | Each entry has the criterion's id and display text. A manual criterion gets `'Análise Manual'`, and an automatic one with no item gets `'Erro'` with an empty justification. Otherwise the entry takes the first matching item's status and justification; manual criteria take only the justification. `manualEdit` is false on the professor side and absent on the student side. |
| Rubric.UpdateStatus | src/components/AnalysisDashboard.jsx:66-71 | Same length. An entry with the id gets the new status and `manualEdit` true. Every other entry is unchanged. |
| Rubric.UpdateStatusIdempotent | src/components/ProfessorDashboard.jsx:197-203 | Applying the same override twice equals applying it once. |
| Rubric.UpdateStatusAligned | src/components/AnalysisDashboard.jsx:66-71 | An override keeps the report aligned with the catalogue. |
| Rubric.OverridesMarkEdited | src/components/ProfessorDashboard.jsx:197-203 | After a series of overrides an entry is marked edited iff some override named it, and it carries the last such status. An entry no override named is unchanged. |
| Rubric.Lookup | src/components/AnalysisDashboard.jsx:75 | None iff no criterion has the id; otherwise a catalogue criterion with that id. |
| Rubric.LookupUnique | src/components/AnalysisDashboard.jsx:75 | With unique ids, looking up a criterion's id finds that criterion. |
| Rubric.Rescore | src/components/AnalysisDashboard.jsx:72-78 | Rescoring is defined iff every entry's id is in the catalogue. Otherwise `find` returns undefined and reading `type` throws. |
| Rubric.CountAutoApprovedBounded | src/components/AnalysisDashboard.jsx:74-77 | Only automatic approvals are counted, so the count is at most the number of automatic criteria. |
| Rubric.RescoreBounded | src/components/AnalysisDashboard.jsx:72-78 | A rescored report aligned with a catalogue of unique ids scores between 0 and 100. |
| Rubric.ManualOverrideKeepsScore | src/components/AnalysisDashboard.jsx:72-78 | Overriding a manual criterion does not change the rescored score. |
| Rubric.ApproveNeverLowersScore | src/components/AnalysisDashboard.jsx:66-78 | Approving any entry never lowers the rescored score. |
| Rubric.NoAutoApprovalScoresZero | src/components/AnalysisDashboard.jsx:72-78 | With no automatic entry approved, the rescored score is 0. |
| Rubric.ManualApprovalCountedOnlyFirst | src/components/AnalysisDashboard.jsx:225-227 | A model approval of a manual criterion counts in the initial score. The merged report rescores to 0, before and after any override. |
| Rubric.InitialScoreCanExceedHundred | src/components/AnalysisDashboard.jsx:225-227 | One automatic criterion approved twice in the reply gives an initial score of 200. |
| Rubric.AnalyzeReplyIff | src/components/AnalysisDashboard.jsx:211-236 | A report is produced iff the stripped reply has a braced span and the payload parses to an object with `analise`. The report is then the merge of those items, aligned with the catalogue, and scored from their approvals. |
| Rubric.ReadReport | src/components/ProfessorDashboard.jsx:110-146 | The imperative extraction, parse, score and merge produce exactly `AnalyzeReply`'s report or its failure. |
| LinkAnalysis.FetchVideo | backend/server.js:143-160 | A transport failure is passed on. An empty `items` list fails with the "not found" message. A found video succeeds with its title and at most the first 500 characters of its description, followed by `...`. |
| LinkAnalysis.YouTubeCalls | backend/server.js:162 | n attempts make n metadata calls for the same id, numbered 1..n. |
| LinkAnalysis.FetchLinkContent | backend/server.js:136-195 | Fetching with the mutable `content` local gives exactly the content, calls and sleeps of the specification `FetchContent`. |
| LinkAnalysis.AnalyzeLink | backend/server.js:128-240 | The step-by-step handler gives exactly the record, calls and sleeps of the specification `HandleLink`. |
| LinkAnalysis.RecordShape | backend/server.js:129-239 | The record's link is the cleaned input, and `displayText` is the link, `\nDescrição: `, then the description. |
| LinkAnalysis.FetchFailure | backend/server.js:224-230 | Any fetch failure gives `'Reprovado'`. The description is the social message iff the error contains `rede social`; otherwise it is the unreachable message. |
| LinkAnalysis.SocialUnreachableDiffer | backend/server.js:226-228 | The social and the unreachable descriptions of a link are different. |
| LinkAnalysis.SocialLinkNotFetched | backend/server.js:163-165 | A social link makes no call and no sleep and ends `'Reprovado'` with the social message. |
| LinkAnalysis.VideoBeforeSocial | backend/server.js:136-165 | A link containing `youtube.com` or `youtu.be` is handled the same whatever its hostname: the video test comes first. |
| LinkAnalysis.ConcludeUsesGeminiAndParser | backend/server.js:203-222 | After the fetch, the outcome depends only on the Gemini oracle and `JSON.parse`. |
| LinkAnalysis.GenericFetchedOnce | backend/server.js:166-195 | A generic link makes one Perplexity call and no sleep, followed by at most Gemini calls. A failed fetch makes nothing else. |
| LinkAnalysis.VideoRetried | backend/server.js:136-162 | A video link makes n metadata calls, 1 ≤ n ≤ 3, with the backoff sleeps between them, and then at most a Gemini call. |
| LinkAnalysis.VideoUnreachable | backend/server.js:143-230 | Three failed metadata attempts make three calls and sleep 1000 then 2000 ms. The link ends `'Reprovado'` with the unreachable message. |
| LinkAnalysis.VideoErrorsAreNotSocial | backend/server.js:139-228 | The invalid-id and not-found messages do not contain `rede social`. |
| LinkAnalysis.SummaryFields | backend/server.js:203-222 | If parsing fails, the result is `'Reprovado'` with the raw content. Otherwise the status is the parsed `status`, or `'Reprovado'` if it is absent or empty, and the description is the parsed `descricao`, or the content if it is absent or empty. |
| LinkAnalysis.BatchRecordAt | backend/server.js:128-242 | For all-string input, record i is the handler's record for link i. |
| LinkAnalysis.AnalyzeAll | backend/server.js:128-242 | The sequential loop over the links gives exactly the records and calls of the specification `Batch`. |
| LinkAnalysis.AnalyzeLinks | backend/server.js:106-251 | The imperative endpoint gives exactly `Endpoint`'s response and calls. |
| LinkAnalysis.InvalidLinksRejected | backend/server.js:109-111 | Missing, non-array or empty `links` answers 400 and makes no call. |
| LinkAnalysis.MissingKeyRejected | backend/server.js:115-122 | A missing key answers 500 and makes no call. |
| LinkAnalysis.OneRecordPerLink | backend/server.js:128-245 | With string links and all keys, the answer has one record per input link, in input order, each that link's own record. |
| LinkAnalysis.NonStringRejected | backend/server.js:128-250 | A non-string entry answers 500, with the internal-error message. |
| DashboardState.ExtractText | src/components/ProfessorDashboard.jsx:56-73 | Text is produced iff the file is a Word document and reading succeeds. Any other type is refused with the unsupported-format message. |
| DashboardState.RunAnalysis | src/components/AnalysisDashboard.jsx:207-236 | The model call and reading of its reply give `AnalyzeDocument`'s report, aligned with the catalogue when present. |
| AnalysisDashboard.CatalogueIds | src/components/AnalysisDashboard.jsx:30-63 | The student catalogue has 32 criteria with ids 1..32 in order. |
| AnalysisDashboard.CatalogueUnique | src/components/AnalysisDashboard.jsx:30-63 | Its ids increase and are unique, so the rescoring lookup is well defined. |
| AnalysisDashboard.AutoCount | src/components/AnalysisDashboard.jsx:30-63 | 22 of them are automatic: the score's denominator. |
| AnalysisDashboard.SuggestionsAreAutomatic | src/components/AnalysisDashboard.jsx:16 | Suggestions are offered for 2, 18 and 22, which are automatic criteria of the catalogue. |
| AnalysisDashboard.StudentReportRows | src/components/AnalysisDashboard.jsx:225-236 | A student report has 32 rows, criteria 1..32 in order, with no `manualEdit`. It is scored out of 22. |
| AnalysisDashboard.OverrideRescore | src/components/AnalysisDashboard.jsx:65-82 | After an override the report stays aligned and rescores to at most 100. The same override again changes nothing. |
| AnalysisDashboard.ReadSuggestion | src/components/AnalysisDashboard.jsx:128-141 | The imperative strip-and-scan produces exactly `ParseSuggestion`'s result. |
| AnalysisDashboard.AskAdvisor | src/components/AnalysisDashboard.jsx:114-141 | For a listed criterion, the model call and reading of its reply give `StudentSuggestion`'s outcome. |
| AnalysisDashboard.SuggestionOnlyForListed | src/components/AnalysisDashboard.jsx:93-111 | For ids other than 2, 18 and 22 no suggestion is produced, and the model is not consulted. |
| AnalysisDashboard.SuggestionOutcome | src/components/AnalysisDashboard.jsx:128-141 | For a listed criterion, a parsed suggestion comes out iff the reply arrived, its stripped text has both braces and the slice parses. Otherwise the fixed error object comes out. |
| AnalysisDashboard.SuggestionReversedBraces | src/components/AnalysisDashboard.jsx:130-135 | With a `}` before every `{`, the student path still parses the brace-free text between them: the ordering guard is missing. |
| AnalysisDashboard.Dashboard.constructor | src/components/AnalysisDashboard.jsx:19-28 | Every state field starts empty or false. |
| AnalysisDashboard.Dashboard.StudentAnalysis | src/components/AnalysisDashboard.jsx:176-248 | With no file nothing changes. Otherwise the report is the analysis of the extracted text or none, and the error is set iff there is no report. The modal opens on success, the text is kept when extracted, and loading ends. |
| AnalysisDashboard.Dashboard.StatusUpdate | src/components/AnalysisDashboard.jsx:65-84 | The report becomes the override with its rescored score, which is at most 100. The correction modal closes. |
| AnalysisDashboard.Dashboard.GenerateCorrection | src/components/AnalysisDashboard.jsx:86-145 | The suggestion becomes `StudentSuggestion` of the row and the stored text, and generation ends. |
| AnalysisDashboard.Dashboard.EditClick | src/components/AnalysisDashboard.jsx:147-155 | The target is set, the modal opens and the suggestion is generated for listed ids. It is cleared otherwise. |
| ProfessorDashboard.CatalogueIds | src/components/ProfessorDashboard.jsx:30-54 | The professor catalogue has 23 criteria: id 1, then ids 3..24. |
| ProfessorDashboard.CatalogueUnique | src/components/ProfessorDashboard.jsx:30-54 | Its ids increase and are unique. |
| ProfessorDashboard.AutoCount | src/components/ProfessorDashboard.jsx:30-54 | 16 of them are automatic: the score's denominator. |
| ProfessorDashboard.SuggestionsAreAutomatic | src/components/ProfessorDashboard.jsx:16 | The suggestion id 15 is an automatic criterion of the catalogue. |
| ProfessorDashboard.ProfessorReportRows | src/components/ProfessorDashboard.jsx:128-141 | A professor report has 23 aligned rows, each with `manualEdit` false. It is scored out of 16. |
| ProfessorDashboard.SuggestionOutcome | src/components/ProfessorDashboard.jsx:182-189 | A parsed suggestion comes out iff the reply arrived and its stripped text parses whole, with no brace scan. Otherwise the fixed error object comes out. |
| ProfessorDashboard.FencedSuggestion | src/components/ProfessorDashboard.jsx:184-186 | A fenced JSON object reply is parsed as exactly that object. |
| ProfessorDashboard.PdfRowOf | src/components/ProfessorDashboard.jsx:221-226 | The row keeps id and criterion. The status gains the suffix ` (Editado)` iff `manualEdit` is set, and is otherwise unchanged. An empty justification becomes `N/A`, and a non-empty one is kept. |
| ProfessorDashboard.PdfRows | src/components/ProfessorDashboard.jsx:221-226 | One PDF row per report entry, in order. |
| ProfessorDashboard.PdfMarksOverridden | src/components/ProfessorDashboard.jsx:195-226 | After overrides of a fresh report, a row's status carries ` (Editado)` iff some override named it. The label is then the last such status plus the suffix. |
| ProfessorDashboard.Dashboard.constructor | src/components/ProfessorDashboard.jsx:19-28 | Every state field starts empty or false. |
| ProfessorDashboard.Dashboard.ProfessorAnalysis | src/components/ProfessorDashboard.jsx:75-154 | With no file nothing changes. Otherwise the report is the analysis with `manualEdit` false, or none, and the error is set iff there is no report. The modal opens on success and loading ends. |
| ProfessorDashboard.Dashboard.StatusUpdate | src/components/ProfessorDashboard.jsx:195-207 | The entries become the override and the score is kept: there is no rescoring. The correction modal closes. |
| ProfessorDashboard.Dashboard.GenerateCorrection | src/components/ProfessorDashboard.jsx:166-193 | The suggestion becomes `ProfessorSuggestion` of the row and the stored text, and generation ends. |
| ProfessorDashboard.Dashboard.EditClick | src/components/ProfessorDashboard.jsx:156-164 | The target is set and the modal opens. The suggestion is generated for id 15 and cleared otherwise. |

## Left out

- Rendering: the React/MUI components, the results and correction modals, the upload section and the app shell are display logic only.
- Document loading: `mammoth` and `FileReader`. What reading and extraction give is an input of `ExtractText`.
- PDF export: the jsPDF calls. Only the professor's row labelling is modelled. The student export reads a field its entries do not have and is left out.
- Persistence: the Postgres ementa routes of the backend are CRUD input and output.
- Prompt wording: prompts and catalogue display texts are prose. They are abstracted as `Prose` functions from id to text, and only ids, kinds and the presence of `textForAI` are kept.
- Network services: YouTube, Perplexity and Gemini are oracles. Their timeouts, HTTP status codes and response shapes are not modelled beyond success or failure with a message. The YouTube snippet is reduced to a title and a description cut to 500 characters.
- `JSON.parse` is an oracle returning an optional JSON value. Only the fields the code reads are modelled.
- `new URL` is a hostname oracle that may fail, so WHATWG host parsing is not modelled.
- The video-id pattern is modelled by its leftmost-match behaviour. JavaScript's backtracking engine itself is not modelled.
- Strings are sequences of Unicode scalar values, whereas JavaScript counts UTF-16 code units. Lengths of text outside the Basic Multilingual Plane, as in the cuts at 500 and 4000 characters, are not modelled.
- Concurrency: `Promise.all` is a sequential loop in input order. The async handlers run to completion, so intermediate states such as `isLoading` or `isGeneratingSuggestion` being true mid-call are not observable. A stale closure over `fileContent` or a race between two clicks is not modelled.
- Sleeps are recorded as a sequence of delays. No clock is modelled.
- LinkAnalysis.SummaryFields: when the model answers the literal `null`, the code throws a TypeError whose exact message is not modelled. The contract only says that the description is one of the two failure messages.
- ProfessorDashboard.Dashboard.StatusUpdate: with no report, the functional update would throw during rendering. The model keeps the report absent.
- AnalysisDashboard.Dashboard.StatusUpdate: the throw of the rescoring lookup for an unknown id is unreachable while the report is aligned with the catalogue. `Rubric.Rescore` models it as an absent score.
- Rubric.Merge: the `status` and `justificativa` of a reply item are plain strings in `ModelReply.ReplyItem`. JavaScript would copy an `undefined` or numeric value into the merged entry (src/components/AnalysisDashboard.jsx:233-234), and a `null` element of `analise` throws at `item.status` outside the parse `try` (src/components/AnalysisDashboard.jsx:225). The model takes the parser to return well-formed items.
- AnalysisDashboard.Dashboard.StatusUpdate: with no report, JavaScript throws at `analysisResult.analise` (src/components/AnalysisDashboard.jsx:65-84). The model leaves the state unchanged instead.
- `Math.round` of the score is modelled exactly as `(200·a + b) / (2·b)` over the integers, so no floating point is involved.
