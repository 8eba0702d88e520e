# Job hunt backend: a verified model of its core

This project models the request-handling core of a job-search backend,
written in TypeScript on Express. It covers:

- **Job adapters.** The JSearch/Adzuna adapter (`normalizeJob`) and the
  JoinRise adapter (`getJobs`, `normalizeJoinRiseJob`) turn raw provider
  records into canonical job records.
- **Skills service.** It extracts skill profiles, using a keyword scan as
  the fallback, and computes the skill-overlap percentage.
- **AI service.** It cleans up and interprets the language model's reply for
  a match score (`getMatchScore`) and for the chat assistant
  (`chatAssistant`).
- **Request handlers.**
  - Job listings, cached for 30 minutes.
  - The per-user application ledger: apply, update status, list.
  - Résumé upload.
  - The score orchestrator, which scores the first five jobs and caches the
    result for an hour.
- **The Redis wrapper** the handlers share. It is a class whose reads miss and
  whose writes are skipped when no client was configured.
- **The upload configurations:** the stored file name and the MIME filter.
  These come from `config/multer.ts`, which sanitises the name, and from the
  résumé route's own middleware, which does not.

## How values are modelled

JavaScript values are the datatype `JsValue.Value`: `null`, booleans,
integers, strings, arrays and objects. An object is a `map<string, Value>`.
`undefined` is a missing key, or `None` in an `Option<Value>`.

The model writes out these JavaScript semantics explicitly:

- truthiness, `||` and `?.`;
- template-string conversion;
- `===`;
- `Number(...)` and `Math.min`/`Math.max` with NaN.

An object spread `{...a, ...b}` is the map union `a + b`.

Outside influences are parameters of the members that use them:

- the clock and `Math.random`;
- `toLocaleString`;
- the language model: a function from the variable part of the prompt to the
  reply text;
- `JSON.parse`: `None` means it throws;
- the live job list;
- the outcome of text extraction and of the HTTP request to JoinRise.

A request handler is a method on a `Cache.Store`. It returns a `Cache.Reply`
(status and JSON body). Its postcondition states the reply and the new store
for every branch of the handler. A store write is described by the two-state
predicate `Store.Wrote`: only the written key changes, with its expiry, and
only when the client is present.

A runtime TypeError caught by a handler's `catch` gives the reply
`Cache.Crashed`. Examples are `findIndex` meeting `null`, or `substring` on a
non-string.

## Model

| member | source | states |
|---|---|---|
| Cache.Store.constructor | src/services/redis.service.ts:8-17 | the client starts empty; `connected` records whether both credentials were present |
| Cache.Store.Get | src/services/redis.service.ts:29-37 | a read yields a value exactly when the client is present and the key is stored, and then yields the stored value |
| Cache.Store.Set | src/services/redis.service.ts:19-27 | a write reports success exactly when the client is present; it then stores the value and its expiry under the key; no other key changes; without a client nothing changes |
| Skills.CalculateSkillMatch | src/services/skills.service.ts:125-157 | the loop counts the job tokens that have a containment partner among the résumé tokens; the result is the rounded percentage, at most 100; it is 100 for an empty job profile and 0 for an empty résumé profile |
| Skills.MatchCountBounded | src/services/skills.service.ts:145-152 | the matched count never exceeds the number of job tokens |
| Skills.SkillMatchBounded | src/services/skills.service.ts:155-156 | the score is always between 0 and 100 |
| Skills.MatchCountExtremes | src/services/skills.service.ts:145-152 | if every job token has a partner, the count is the number of tokens; if none has, it is 0 |
| Skills.SkillMatchAllOrNone | src/services/skills.service.ts:141-156 | with both profiles non-empty, full coverage scores 100 and no coverage scores 0 |
| Skills.MatchCountAppend | src/services/skills.service.ts:145-152 | the count is additive over concatenated job token lists |
| Skills.MatchCountRemove | src/services/skills.service.ts:145-152 | removing one token removes exactly its contribution from the count |
| Skills.MultisetRemove | src/services/skills.service.ts:127-139 | removing matching elements from two permutations leaves permutations |
| Skills.MatchCountPermutation | src/services/skills.service.ts:127-152 | the count does not depend on the order of the job tokens |
| Skills.MatchCountSameTokens | src/services/skills.service.ts:145-152 | the count depends on the résumé tokens only as a set, and more résumé tokens never lower it |
| Skills.SkillMatchIgnoresCategories | src/services/skills.service.ts:127-139 | the score depends only on the flattened tokens: the job tokens as a multiset, the résumé tokens as a set |
| Skills.SkillMatchMonotone | src/services/skills.service.ts:125-157 | adding résumé tokens never lowers the score |
| Skills.RoundPercentBounded | src/services/skills.service.ts:155-156 | rounding m/n·100 with m ≤ n gives at most 100 |
| Skills.KeywordsIn | src/services/skills.service.ts:168-171 | a keyword is kept exactly when the text contains it; the kept keywords keep list order and are distinct if the list is |
| Skills.KeywordListsDistinct | src/services/skills.service.ts:162-165 | none of the four keyword lists repeats an entry |
| Skills.ExtractSkillsBasicExact | src/services/skills.service.ts:159-172 | each category holds exactly the keywords of its list that occur in the lower-cased text |
| Skills.ExtractSkillsBasicIgnoresCase | src/services/skills.service.ts:160-171 | the keyword scan ignores case |
| Skills.JavaReportedWithJavascript | src/services/skills.service.ts:162-171 | substring matching reports "java" whenever "javascript" occurs |
| Skills.Dedupe | src/services/skills.service.ts:63-68 | `[...new Set(xs)]` has no repetitions, the same elements as xs, and lists them in the order of their first occurrence in xs |
| Skills.DedupeOfDistinct | src/services/skills.service.ts:63-68 | de-duplicating a list without repetitions leaves it unchanged |
| Skills.LowerAll | src/services/skills.service.ts:63-68 | each token is lower-cased in place |
| Skills.NormalizeTokens | src/services/skills.service.ts:63-68 | the normalised tokens are distinct and lower-case, and are exactly the lower-cased input tokens |
| Skills.NormalizeProfile | src/services/skills.service.ts:63-68 | every category of a normalised profile is lower-case and distinct |
| Skills.LowerAllOfLowerCase | src/services/skills.service.ts:63-68 | lower-casing lower-case tokens changes nothing |
| Skills.NormalizeProfileIdempotent | src/services/skills.service.ts:63-68 | normalising twice is the same as normalising once |
| Skills.TechnicalKeywordsLowerCase | src/services/skills.service.ts:162 | the technical keywords are written in lower case |
| Skills.SoftKeywordsLowerCase | src/services/skills.service.ts:163 | the soft-skill keywords are written in lower case |
| Skills.ToolKeywordsLowerCase | src/services/skills.service.ts:164 | the tool keywords are written in lower case |
| Skills.IndustryKeywordsLowerCase | src/services/skills.service.ts:165 | the industry keywords are written in lower case |
| Skills.ExtractSkillsBasicNormalized | src/services/skills.service.ts:159-172 | the fallback scan yields a normalised profile |
| Skills.ExtractSkillsFromResume | src/services/skills.service.ts:29-76 | résumé extraction always yields a normalised profile, whether the model answers or the fallback runs |
| Skills.ExtractSkillsFromJob | src/services/skills.service.ts:78-123 | job extraction always yields a normalised profile, whether the model answers or the fallback runs |
| Skills.ExtractionSeesOnlyExcerpt | src/services/skills.service.ts:54 | texts that agree on the first 3000 (résumé) or 2000 (job) characters get the same model answer |
| Skills.FallbackScansWholeResume | src/services/skills.service.ts:74 | the fallback scan reads past the excerpt: a keyword after character 3000 is still reported |
| NormalizeJob.JSearchLocation | src/utils/normalizeJob.ts:13 | the JSearch location is never empty |
| NormalizeJob.JSearchFields | src/utils/normalizeJob.ts:7-22 | the JSearch branch computes exactly the ten canonical fields |
| NormalizeJob.FallbackFields | src/utils/normalizeJob.ts:25-36 | the fallback branch yields exactly the ten canonical fields |
| NormalizeJob.Normalize | src/utils/normalizeJob.ts:3-37 | a record with `job_id` gets the canonical fields plus all its own, and its own values win; any other record gets exactly the canonical fields |
| NormalizeJob.JSearchLocationCases | src/utils/normalizeJob.ts:13 | "Remote" when city and country are missing; the country alone when the city is missing; a trailing ", " kept when only the country is missing |
| NormalizeJob.JSearchSpreadWins | src/utils/normalizeJob.ts:20 | a raw key always wins over the computed field, and a canonical field the record lacks keeps its computed value |
| NormalizeJob.JSearchWorkModeAndSalary | src/utils/normalizeJob.ts:15-16 | the work mode follows `job_is_remote`; the salary is "Not disclosed" unless the record has its own `salary` |
| NormalizeJob.FallbackPreference | src/utils/normalizeJob.ts:28-30 | company and location prefer the nested `display_name`, then the raw value, then the sentinel |
| NormalizeJob.FallbackSalaryCases | src/utils/normalizeJob.ts:33 | "min - max" exactly when `salary_min` is truthy; a missing maximum renders as "undefined" |
| NormalizeJob.FallbackSalaryField | src/utils/normalizeJob.ts:33 | the fallback record's `salary` is exactly that salary text |
| NormalizeJob.MissingFieldDefaults | src/utils/normalizeJob.ts:9-34 | in both branches, a missing title, description or link becomes its sentinel |
| NormalizeJob.FallbackFieldsFilled | src/utils/normalizeJob.ts:25-36 | every canonical field of a fallback record is truthy |
| NormalizeJob.FallbackLeadFilled | src/utils/normalizeJob.ts:26-30 | `id`, `title`, `company`, `description` and `location` of a fallback record are truthy whenever the random id is non-empty |
| NormalizeJob.FallbackTailFilled | src/utils/normalizeJob.ts:31-35 | `jobType`, `workMode`, `salary`, `url` and `postedAt` of a fallback record are truthy whenever the clock text is non-empty |
| NormalizeJob.FallbackComputedFilled | src/utils/normalizeJob.ts:25-36 | every field the fallback branch computes is truthy |
| NormalizeJob.JSearchFieldsFilled | src/utils/normalizeJob.ts:7-22 | every computed JSearch field except `id` is truthy unless overridden |
| NormalizeJob.JSearchLeadFilled | src/utils/normalizeJob.ts:10-13 | the JSearch `title`, `company`, `description` and `location` are always truthy |
| NormalizeJob.JSearchTailFilled | src/utils/normalizeJob.ts:14-18 | the JSearch `jobType`, `workMode`, `salary`, `url` and `postedAt` are truthy whenever the clock text is non-empty |
| NormalizeJob.JSearchComputedFilled | src/utils/normalizeJob.ts:7-22 | every field the JSearch branch computes, except `id`, is truthy |
| JoinRise.Fields | src/services/joinrise.service.ts:60-74 | the computed fields are exactly the ten canonical fields |
| JoinRise.NormalizeJoinRise | src/services/joinrise.service.ts:45-77 | the result holds the canonical fields and every raw key; raw values win, and other canonical fields are the computed ones |
| JoinRise.SalaryCases | src/services/joinrise.service.ts:51-58 | the yearly range needs both ends truthy; otherwise the first truthy raw salary field; otherwise "Not disclosed" |
| JoinRise.RawSalaryWins | src/services/joinrise.service.ts:75 | a raw `salary` key wins even over a complete yearly range |
| JoinRise.CompanyPreference | src/services/joinrise.service.ts:48 | without a raw `company` key: the owner's company name, else "Company Not Disclosed"; a raw `company` wins through the spread |
| JoinRise.DefaultTexts | src/services/joinrise.service.ts:62-75 | for any record: without a raw `title` the title is "Untitled Position" (a raw one wins); without `company` or an owner's company name, "Company Not Disclosed"; without `description` or a summary, "No description available" |
| JoinRise.DefaultKinds | src/services/joinrise.service.ts:50-75 | for any record lacking the field and every field it is taken from: location "Remote", jobType "Full-time", workMode "Not specified", salary "Not disclosed" |
| JoinRise.DefaultTrace | src/services/joinrise.service.ts:61-75 | for any record: url "#" without a raw `url` (a raw one wins); the clock's time without any time field; the random id without `_id` or `id` |
| JoinRise.LocationPreference | src/services/joinrise.service.ts:50 | `locationAddress`, then "Remote", unless a raw `location` is spread over it |
| JoinRise.JobTypePreference | src/services/joinrise.service.ts:67 | the breakdown's employment type, then `type`, then `employment_type`, then "Full-time" |
| JoinRise.WorkModePreference | src/services/joinrise.service.ts:68 | the breakdown's work model, then `type`, then "Not specified" |
| JoinRise.SalaryTruthy | src/services/joinrise.service.ts:51-58 | the computed salary is never falsy: the range starts with "$" and the other outcomes are truthy |
| JoinRise.LeadFilled | src/services/joinrise.service.ts:61-65 | `id`, `title`, `company`, `description` and `location` are computed truthy whenever the random id is non-empty |
| JoinRise.TailFilled | src/services/joinrise.service.ts:67-73 | `jobType`, `workMode`, `salary`, `postedAt` and `url` are computed truthy whenever the clock text is non-empty |
| JoinRise.ComputedFilled | src/services/joinrise.service.ts:60-74 | every computed canonical field is truthy, given non-empty clock text and random id |
| JoinRise.FieldsFilled | src/services/joinrise.service.ts:60-76 | every canonical field the raw record does not override is truthy in the normalised record |
| JoinRise.DescriptionPreference | src/services/joinrise.service.ts:64 | the one-sentence summary wins over the raw description unless `description` is a raw key |
| JoinRise.PostedAtPreference | src/services/joinrise.service.ts:71 | `postedAt` prefers `createdAt`, then `updatedAt`, then `posted_at`, then the clock |
| JoinRise.IdPreference | src/services/joinrise.service.ts:61 | `id` prefers `_id`; a raw `id` key overrides it through the spread |
| JoinRise.GetJobs | src/services/joinrise.service.ts:6-43 | on a list payload the result has one record per element, and every record has the canonical fields |
| JoinRise.UnwrapPreference | src/services/joinrise.service.ts:21-26 | the list is taken from `result.jobs`, then `data`, then `jobs`, then the empty list |
| JoinRise.GetJobsEmptyOnError | src/services/joinrise.service.ts:32-42 | a failed request, a payload without a list, or a list holding `null` gives the empty list |
| JoinRise.GetJobsElementwise | src/services/joinrise.service.ts:31 | each element of a list without `null` is the normalised raw object at that position |
| AiService.DropBeforeFirstBrace | src/services/ai.service.ts:79 | text before the first `{` is removed, and only that |
| AiService.DropAfterLastBrace | src/services/ai.service.ts:80 | text after the last `}` is removed, and only that |
| AiService.NoFenceAfterTick | src/services/ai.service.ts:78 | helper for fence removal: what follows a removed backtick holds no fence |
| AiService.RemoveFenceFree | src/services/ai.service.ts:78 | after the fence removal no triple backtick remains |
| AiService.FreeWithin | src/services/ai.service.ts:81 | a fence-free text has fence-free substrings, such as its trimmed form |
| AiService.CleanupFenceFree | src/services/ai.service.ts:76-81 | the cleaned reply holds no code fence |
| AiService.CleanupWithoutBraces | src/services/ai.service.ts:79-81 | a fence-free text without braces comes out trimmed and otherwise unchanged |
| AiService.CleanupOpensWithBrace | src/services/ai.service.ts:79-81 | when the fence-free text has a `{`, the cleaned reply starts with `{` |
| AiService.CleanupClosesWithBrace | src/services/ai.service.ts:80-81 | when a `}` follows the first `{`, the cleaned reply ends with `}` |
| AiService.TrimKeepsHead | src/services/ai.service.ts:81 | trimming a text that starts with a non-space keeps that first character |
| AiService.TrimKeepsLast | src/services/ai.service.ts:81 | trimming a text that ends with a non-space keeps that last character |
| AiService.Clamp | src/services/ai.service.ts:86 | the corrected score rule always gives a finite number between 0 and 100 |
| AiService.ScoreReply | src/services/ai.service.ts:74-97 | under the corrected score rule, the interpreted reply has a score in 0..100 and a truthy reason |
| AiService.GetMatchScore | src/services/ai.service.ts:48-98 | under the corrected score rule, the match score is always between 0 and 100 |
| AiService.MatchScoreSeesExcerpts | src/services/ai.service.ts:52-55 | texts that agree on their first 1500 characters get the same score |
| AiService.PercentIsNaN | src/services/ai.service.ts:86 | the string "85%" coerces to NaN |
| AiService.AsWrittenScoreCanBeNaN | src/services/ai.service.ts:86 | as written, a parsed score of "85%" yields a NaN score |
| AiService.ClampAgrees | src/services/ai.service.ts:86 | whenever the code as written yields a number, the corrected rule yields the same number |
| AiService.ClampRules | src/services/ai.service.ts:86 | a missing or zero score becomes 75; a negative one becomes 0; one above 100 becomes 100; other scores are kept |
| AiService.ScoreDefaults | src/services/ai.service.ts:86-90 | on a parsed object the score follows the clamp rule, and a falsy reason becomes the default sentence |
| AiService.ScoreFallback | src/services/ai.service.ts:91-96 | a reply that does not parse, or parses to `null`, gives score 75 with the fixed reason under both rules |
| AiService.JobLine | src/services/ai.service.ts:101-102 | a context line starts with "- title at company (location) - " and ends with the salary text, or with "Salary not disclosed" when the salary is falsy, and is exactly as long as those two parts together |
| AiService.JobLineDetermined | src/services/ai.service.ts:101-102 | any string with that head, that salary tail and that length is the context line, so nothing stands between the head and the salary |
| AiService.JobContextShape | src/services/ai.service.ts:101-103 | the context is empty exactly when there are no jobs; it contains the line of each of the first eight jobs; jobs after the eighth do not affect it |
| AiService.DropLeadingNonLetters | src/services/ai.service.ts:144 | the result is a suffix that starts with a letter (or is empty), every dropped character is a non-letter, and it is empty exactly when the text has no letter |
| AiService.ChatAssistant | src/services/ai.service.ts:100-153 | the job list is always empty; a reply that parses to non-null gives its truthy `explanation`, else the raw reply; a reply that does not parse, or parses to null, gives the fallback text |
| AiService.ChatFallbackText | src/services/ai.service.ts:143-150 | the fallback explanation is never empty |
| AiService.ChatFallbackNoLetters | src/services/ai.service.ts:143-150 | a reply with no ASCII letter gives the help sentence |
| AiService.CleanKeepsLetter | src/services/ai.service.ts:145-146 | removing fences and trimming a text that starts with a letter keeps that letter in front and leaves no fence |
| AiService.ChatFallbackShape | src/services/ai.service.ts:141-151 | a reply holding an ASCII letter gives the cleaned reply, which starts with a letter and holds no fence |
| Applications.FindFrom | src/controllers/applications.controller.ts:26 | a found index lies within the list |
| Applications.FindIndex | src/controllers/applications.controller.ts:26 | a found index lies within the list |
| Applications.FindFromSpec | src/controllers/applications.controller.ts:26 | the search stops at the first match or the first `null`; it reports a miss exactly when every element is non-null and does not match |
| Applications.FindJob | src/controllers/applications.controller.ts:26 | the loop's result is the first-match search |
| Applications.NewEntry | src/controllers/applications.controller.ts:14-20 | a new entry holds only the request fields, `status` and `timestamp` |
| Applications.NewEntryFields | src/controllers/applications.controller.ts:14-20 | a new entry carries the request's job id, title and company, status "Applied" and the request time |
| Applications.MergeRequestFields | src/controllers/applications.controller.ts:27 | the merged entry carries the request's job id, title and company, status "Applied" and the new time |
| Applications.MergeKeepsOthers | src/controllers/applications.controller.ts:27 | the merged entry keeps every field of the old entry that the request does not set |
| Applications.MergeShape | src/controllers/applications.controller.ts:14-28 | the merged entry has the request's job id, title and company, status "Applied", the new time, and every other field of the old entry |
| Applications.UpsertReplaces | src/controllers/applications.controller.ts:27-28 | applying for a listed job replaces the first matching entry with the merged entry, in place; the length and all other entries are unchanged |
| Applications.UpsertAppends | src/controllers/applications.controller.ts:29-31 | applying for an unlisted job appends exactly the new entry |
| Applications.StrictEqIsEqual | src/controllers/applications.controller.ts:26 | `===` on the values it accepts is identity |
| Applications.UpsertKeepsUnique | src/controllers/applications.controller.ts:26-31 | applying keeps job ids in the ledger unique |
| Applications.ReplaceKeepsUnique | src/controllers/applications.controller.ts:26-28 | replacing the matching entry keeps job ids unique |
| Applications.AppendKeepsUnique | src/controllers/applications.controller.ts:26-31 | appending an entry for an unlisted job keeps job ids unique |
| Applications.UpsertLedger | src/controllers/applications.controller.ts:26-31 | the search, merge and push compute exactly the upserted ledger, or throw on a `null` entry |
| Applications.ApplyJob | src/controllers/applications.controller.ts:5-39 | any choice other than "Yes" is skipped and the store is untouched; otherwise the stored ledger becomes the upserted list, or the handler crashes without writing |
| Applications.SetStatusOnlyStatus | src/controllers/applications.controller.ts:52-56 | a status update changes only the `status` field of the first matching entry, and keeps job ids unique |
| Applications.UpdateStatus | src/controllers/applications.controller.ts:41-63 | 404 when nothing is stored or no entry matches; crash on a non-list or `null`; otherwise the entry's status is set, the ledger written back and the entry returned |
| Applications.GetApplications | src/controllers/applications.controller.ts:65-74 | the reply's data is the stored ledger when truthy, else the empty list |
| Jobs.CacheKey | src/controllers/jobs.controller.ts:8-9 | every listing key starts with "jobs_v2:" |
| Jobs.DefaultCacheKey | src/controllers/jobs.controller.ts:8-9 | without parameters the key is "jobs_v2:developer:remote" |
| Jobs.FetchJobs | src/controllers/jobs.controller.ts:6-45 | a cached non-empty list is served unchanged; otherwise the live list is returned, and cached for 1800 seconds if non-empty; a failed fetch gives 500 without a write |
| Resume.Preview | src/controllers/resume.controller.ts:39 | the preview is the first (at most) 100 characters followed by "..." |
| Resume.UploadResume | src/controllers/resume.controller.ts:5-47 | no file gives 400; an extraction error or empty text gives 500 without a write; otherwise the text is stored under the user's (or the guest's) key with no expiry |
| Match.PickJobs | src/controllers/match.controller.ts:20-31 | the primary listing wins when it is a non-empty list; the result is empty exactly when all three sources are empty |
| Match.FirstJobs | src/controllers/match.controller.ts:45 | the first min(5, n) jobs, in order |
| Match.ScoreOne | src/controllers/match.controller.ts:47-53 | scoring succeeds exactly when the résumé is a string and the job has a string description or title (the score uses the corrected rule) |
| Match.ScoreOneShape | src/controllers/match.controller.ts:49-53 | a scored job is the job plus `matchScore` and `matchReason`, with all its other fields kept; under the corrected score rule `matchScore` is in 0..100 |
| Match.ReasonAlwaysFromReply | src/controllers/match.controller.ts:51-52 | the stored reason is always the model's reason; "AI analysis complete" is never used |
| Match.AllOrNothing | src/controllers/match.controller.ts:42-54 | the loop yields every job scored in order, or fails as soon as one throws |
| Match.RunAll | src/controllers/match.controller.ts:47-54 | the loop computes exactly the all-or-nothing result over the jobs |
| Match.LoadJobs | src/controllers/match.controller.ts:20-31 | the jobs come from the first non-empty listing of the two cache keys, else from the live fetch |
| Match.ScoreJobs | src/controllers/match.controller.ts:7-64 | 400 without a user; 404 without a résumé; 400 without jobs; a crash when a job cannot be scored; otherwise the first five scored jobs are returned and cached for 3600 seconds (scored with the corrected rule) |
| Match.DefaultListingNotRead | src/controllers/match.controller.ts:20-24 | the listing cached by a parameterless job request is not the one the orchestrator reads first |
| Match.UploadKeyIsScoreKey | src/controllers/match.controller.ts:14-17 | a résumé uploaded for a user is stored under the key the orchestrator reads for that user |
| Upload.Sanitize | src/config/multer.ts:19 | the sanitised name has the same length; allowed units are kept and every other unit becomes `_`; a unit is unchanged exactly when it is safe |
| Upload.SanitizeIdempotent | src/config/multer.ts:19 | sanitising twice is the same as sanitising once |
| Upload.SanitizeKeepsSafeNames | src/config/multer.ts:19 | a name made only of safe units is unchanged |
| Upload.StoredNameShape | src/config/multer.ts:20 | the stored name is the timestamp's digits, a hyphen and the sanitised name, and holds only safe units |
| Upload.RouteStoredNameShape | src/middleware/upload.middleware.ts:9-11 | the résumé route stores the timestamp's digits, a hyphen and the original name unchanged |
| Upload.RouteNameAgrees | src/middleware/upload.middleware.ts:9-11 | the route's stored name equals the sanitised configuration's exactly when the original name holds only safe units |
| Upload.FileFilter | src/config/multer.ts:24-32 | a file is accepted exactly when its type is PDF or plain text; otherwise it is rejected with the fixed message |

## Left out

- The language-model client (`generateContent`: one HTTP request with a 15-second time-out, and three fixed fallback replies for a missing API key, an empty answer and a failed request) is not modelled. The model is a function parameter from the prompt's variable part to the reply, so equal prompts give equal replies.
- `JSON.parse` and the zod schema validation are parameters, not modelled.
- The job search service (`jobApi.service`) is not modelled. The live job list given to the job handler and the orchestrator is a parameter.
- Redis errors other than a missing client are not modelled, and neither is the client's automatic deserialisation of stored strings. A read returns the stored value.
- File reading and PDF text extraction are not modelled. Their outcome is a parameter of `Resume.UploadResume`.
- Both upload configurations' 5 MB size limit and destination directory, the Express app and routes, and the chat controller are not modelled. They are wiring without logic of their own. The two file filters are written alike, and `Upload.FileFilter` models both.
- Upload.StoredNameShape: describes `config/multer.ts`, which no route shown imports. The résumé route (`routes/resume.routes.ts:3`) uses `middleware/upload.middleware.ts`, which stores `${Date.now()}-${file.originalname}` without sanitising. That name is `Upload.RouteStoredName`, and it can hold unsafe units.
- Async execution, concurrent requests and time-outs are not modelled. Each handler runs to completion alone.
- Numbers are integers. `Number(...)` is modelled for optionally signed decimal digits only: fractions, exponents (`"1e2"`), Infinity and the hexadecimal, binary and octal prefixes (`"0x1f"`, `"0b1"`, `"0o7"`) give NaN in the model but a number in JavaScript.
- Skills.SkillMatch: rounds the exact rational m/n·100 half-up. JavaScript's `Math.round` on a double can differ at halves, e.g. 23/40, so the exact value at such inputs is not captured.
- `toLowerCase` is modelled for ASCII letters only.
- Spreading a string or array (which would copy its index keys) is not modelled, in two places: a string or array ledger entry merged by `applyJob`, and a string or array element of the JoinRise payload (`JoinRise.AsRecord`). Such a value contributes no fields.
- Cache.Crashed: the engine's TypeError message text is not modelled. Only the 500 status and `success: false` are.
- Applications.SetStatus: assigning `status` to a matched entry that is not an object is modelled as a throw. For a primitive this is what strict-mode modules do. For an array entry JavaScript would set the property instead. An array entry can match only when the job id is undefined, and the `/applications/:jobId` route always supplies one.
- `Math.random`, `Date.now`, `new Date().toISOString()` and `toLocaleString` are parameters.
- Skills.ExtractSkillsFromResume: only the post-processing of the model's answer and the fallback are modelled. The answer is a parameter.
- Skills.ExtractSkillsFromJob: only the post-processing of the model's answer and the fallback are modelled. The answer is a parameter.
- Resume.Preview: counts Unicode characters, while `substring(0, 100)` counts UTF-16 code units. A text of 60 emoji outside the Basic Multilingual Plane gives a 50-emoji preview in JavaScript and keeps all 60 in the model.
- Common.Take: counts Unicode characters rather than UTF-16 code units, so the 1500-, 2000- and 3000-unit excerpts sent to the language model are longer in the model for text outside the Basic Multilingual Plane. Only the upload file-name sanitiser works on UTF-16 code units.
- Match.ScoreOne: scores with the corrected score rule of `AiService.ScoreReply` (see Findings). For a reply such as `{"score": "85%"}` the source stores NaN, which is serialised as `null`, where the model stores 75.
- Match.ScoreOneShape: `matchScore` lies in 0..100 only under the corrected score rule. As written, the source can store NaN.
- Match.ScoreJobs: the scored jobs it returns and caches use the corrected score rule, as `Match.ScoreOne` does.

## Findings

| source | as written | input that shows it | evidently intended | confidence | as-written member | corrected member |
|---|---|---|---|---|---|---|
| src/services/ai.service.ts:86 | `Math.min(100, Math.max(0, parsed.score \|\| 75))` passes a truthy non-numeric score through, and NaN survives both calls | the model replies `{"score": "85%"}`; the score is NaN | a score that is not a number falls back to 75, and the result is always a number in 0..100 | not executed | AiService.AsWrittenScoreCanBeNaN | AiService.Clamp |
