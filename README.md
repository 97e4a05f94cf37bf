# stardiscover in Dafny

stardiscover recommends GitHub repositories. It works in these stages:

1. It syncs the repositories a user has starred.
2. It asks a text model for a *taste profile* of the user.
3. It finds *similar users*: the stargazers who keep turning up across the user's most-starred repositories.
4. It gathers what those users starred as *candidates*.
5. The text model scores each candidate against the profile, and the best are stored as one recommendation *batch*.

HTTP routes start these steps as background jobs and list their results. A weekly scheduler runs the whole refresh for every user.

This project models that core. Each source file becomes one module:

| module | source |
|---|---|
| `Records`, `Tables` | the table rows and their uniqueness constraints, and a `Database` class whose sequence-valued tables the operations replace or append to |
| `GithubClient` | the API client: rate-limit rule, pagination, the read-through cache |
| `LlmClient`, `Prompts` | `generate_json` and the prompt texts |
| `ProfileAnalyzer` | taste profile building and display |
| `SimilarUsers` | similar-user discovery and candidate gathering |
| `RecommendationEngine` | scoring and the recommendation batch |
| `GithubRouter`, `RecommendationsRouter` | the routes and background tasks |
| `Scheduler` | the weekly refresh |

`Text`, `Seqs`, `Json` and `Wrappers` model the Python built-ins the code relies on: `str.strip`/`split`/`join`/`lower`, stable `sorted`, `dict.get`, truthiness, and Option/Result.

Everything outside the program is a parameter:
- The GitHub API is a function from request to outcome. The outcome is a page of results, an HTTP status error, or another failure.
- The text model is a function from prompt to reply or failure.
- `json.loads` is a partial function.
- Redis is an optional map of keys to values.
- Clock readings and batch ids are values passed in.

Code that loops or updates state is a method proved against a specification function. Examples:
- the stargazer tally;
- the candidate dictionary;
- the scoring loop;
- the job rows the background tasks advance stage by stage;
- the weekly loop over users.

Lemmas then state what the source promises about those functions.

## Model

| member | source | states |
|---|---|---|
| Tables.Database.ReplaceStarred | app/models/repository.py:22-24 | a delete-then-insert of a user's starred rows commits iff the new rows are unique on (user_id, github_repo_id); it then holds exactly those rows for the user, and otherwise leaves the table unchanged; every table constraint is kept |
| Tables.Database.ReplaceCandidates | app/models/repository.py:41-43 | the same for candidate rows, unique on (user_id, github_repo_id) |
| Tables.Database.ReplaceSimilar | app/models/recommendation.py:17-19 | the same for similar-user rows, under the key (user_id, login) that the rows can satisfy (see Findings) |
| Tables.Database.AppendRecommendations | app/models/recommendation.py:39-41 | appending a batch commits iff the whole table stays unique on (user_id, github_repo_id, batch_id); earlier rows are never removed |
| Tables.Database.AddJob | app/models/recommendation.py:58-69 | a job row is appended with the next id, status running and progress 0; nothing is ever written as pending |
| Tables.Database.SetProgress | app/models/recommendation.py:65-66 | only that row's progress and message change |
| Tables.Database.Complete | app/models/recommendation.py:64-68 | the row becomes completed at progress 100, with its message and completion time |
| Tables.Database.Fail | app/models/recommendation.py:64-68 | the row becomes failed with its message and completion time, and its progress stays at the last milestone |
| Tables.ReplacedSelects | app/routers/github.py:54-69 | after a replace, the user's rows are exactly the new ones and every other user's rows are untouched |
| Tables.ReplacedUniqueIff | app/models/repository.py:22-24 | replacing one user's rows in a valid table keeps the constraint iff the new rows meet it |
| Tables.LimitOffset | app/routers/github.py:148-149 | SQL LIMIT/OFFSET: the page holds at most `limit` rows, and they are the rows of the ordered result starting at the offset |
| Tables.ByStarsDescFacts | app/routers/github.py:147 | ORDER BY stars_count DESC permutes the rows, puts those with a star count first in descending order, and puts NULLs last |
| Records.ParseFeedbackType | app/routers/recommendations.py:241 | a feedback type is accepted iff it is thumbs_up, thumbs_down or dismiss |
| Records.FeedbackTypeRoundTrip | app/models/recommendation.py:50 | each of the three names parses back to its own type, and to no other |
| GithubClient.RateLimitWait | app/services/github_client.py:48-49 | the wait is at least one second: exactly 1 once the reset time has passed, otherwise up to one second past the reset |
| GithubClient.RequestAction | app/services/github_client.py:44-55 | a response is slept on and re-requested iff it is a 403 with no quota left and a wait under 3600 s; otherwise 2xx is returned and anything else is raised |
| GithubClient.SleepIsBounded | app/services/github_client.py:50-51 | any sleep lasts between 1 and 3600 seconds |
| GithubClient.ForbiddenIsRaised | app/services/github_client.py:45-54 | a 403 with quota left, or with a wait of an hour or more, is raised |
| GithubClient.CollectPagesReadsOnly | app/services/github_client.py:62-77 | pagination never reads past the first empty page: two APIs that agree up to it give the same result |
| GithubClient.CollectPagesFromPages | app/services/github_client.py:62-77 | every collected repository comes from a page within the cap |
| GithubClient.CollectFullPages | app/services/github_client.py:106-121 | when every page up to the cap is full, the result is their in-order concatenation, with at least one item per page |
| GithubClient.CollectPagesStatusError | app/services/github_client.py:109-121 | a status error after full pages ends the read successfully iff status errors are caught |
| GithubClient.UserStarredKeyInjective | app/services/github_client.py:101 | different logins have different cache keys |
| GithubClient.CachedValue | app/services/github_client.py:26-32 | without Redis a read gives nothing; with it, a value is found iff its key is stored, and it is the stored value |
| GithubClient.CacheWrite | app/services/github_client.py:34-37 | without Redis a write does nothing; with it, the key is added |
| GithubClient.CacheReadAfterWrite | app/services/github_client.py:26-37 | reading a key just written gives the written value, and other keys are unaffected |
| GithubClient.StargazersResult | app/services/github_client.py:83-95 | a non-empty cached list is returned without a request; on a miss, a fetched list is returned as fetched, an HTTP status error gives [] and any other failure raises |
| GithubClient.StargazersReadThrough | app/services/github_client.py:83-93 | after a successful non-empty fetch, the next call is served from the cache with the same answer, whatever the API says then |
| GithubClient.UserStarredResult | app/services/github_client.py:101-124 | a non-empty cached list is returned; on a miss, pages 1..max_pages are concatenated until the first empty page, and a status error keeps the pages already read |
| GithubClient.StargazerStatusErrorEscapes | app/services/github_client.py:79-95 | as written, a status error reaches the caller as a RetryError instead of giving [] (see Findings) |
| GithubClient.UserStarredStatusErrorEscapes | app/services/github_client.py:97-124 | as written, a status error on any page raises instead of ending the read (see Findings) |
| GithubClient.GitHubClient.GetStarredRepos | app/services/github_client.py:57-77 | the loop returns pages 1..50 in order up to the first empty page, and any failure raises |
| GithubClient.GitHubClient.GetRepoStargazers | app/services/github_client.py:79-95 | returns the read-through result; Redis afterwards holds the list just fetched, even an empty one, and nothing is written on a hit or a failure |
| GithubClient.GitHubClient.GetUserStarred | app/services/github_client.py:97-124 | returns the read-through result; Redis afterwards holds what was collected on a miss, even a partial read |
| Text.Strip | app/services/llm_client.py:57 | `str.strip`: the result is a slice of the input that has no whitespace at either end, and only whitespace was removed |
| Text.StripIdempotent | app/services/llm_client.py:63 | stripping twice is stripping once |
| Text.FindFrom | app/services/llm_client.py:58 | the first occurrence of a pattern at or after a position, or none |
| Text.JoinSplit | app/services/llm_client.py:59 | joining the pieces of `s.split(sep)` with `sep` gives `s` back |
| Text.SplitJoin | app/services/profile_analyzer.py:58 | splitting a join of separator-free parts gives the parts back |
| Text.Lower | app/tasks/scheduler.py:193 | `str.lower` maps each character and keeps the length |
| Text.NatToStringValue | app/routers/github.py:51 | the decimal text of a count denotes that count |
| Seqs.SortDescFacts | app/services/recommendation_engine.py:119 | `sort(reverse=True)` is ordered, a permutation, and stable: elements with equal keys keep their order |
| Seqs.FilterPartition | app/services/recommendation_engine.py:111 | the rows a filter keeps and the rows it drops together make up the input |
| Json.Get | app/services/recommendation_engine.py:66 | `dict.get` fails on a non-object and gives the default for a missing key |
| Json.JoinValue | app/services/profile_analyzer.py:85 | `', '.join` of an array succeeds iff every element is a string |
| Prompts.Render | app/services/llm_client.py:50 | the JSON-mode prompt is the prompt followed by the fixed instruction |
| Prompts.ProfileRenderInjective | app/services/profile_analyzer.py:59 | the rendered profile prompt determines its repository list |
| Prompts.JsonModeRenderInjective | app/services/llm_client.py:50 | the JSON-mode text determines the text of the prompt it wraps |
| LlmClient.JsonFencedCandidate | app/services/llm_client.py:58-59 | with a ```json fence, the candidate is the text after its first occurrence, up to the next ``` or the end |
| LlmClient.JsonFencedCandidateSimple | app/services/llm_client.py:58-59 | with a single ```json fence, the candidate runs up to the next ``` |
| LlmClient.PlainFencedCandidate | app/services/llm_client.py:60-61 | otherwise, with a ``` fence, the candidate is the text between the first fence and the next, or the end |
| LlmClient.UnfencedCandidate | app/services/llm_client.py:57-63 | with no fence, the candidate is the stripped response |
| LlmClient.CandidateHasNoFence | app/services/llm_client.py:57-61 | a candidate never contains a fence |
| LlmClient.FlatObjectFrom | app/services/llm_client.py:67 | the search for `\{[^{}]*\}` finds a brace-free `{...}` span, and none starts before it |
| LlmClient.SearchFindsLeftmost | app/services/llm_client.py:67 | the span found is the leftmost match, and it is unique |
| LlmClient.LeftmostFlatObject | app/services/llm_client.py:67 | there is at most one leftmost match |
| LlmClient.FlatObjectFallback | app/services/llm_client.py:64-73 | the fallback is None when nothing matches, and otherwise the parse of the leftmost match |
| LlmClient.ExtractJson | app/services/llm_client.py:55-73 | a candidate that parses is returned unchanged, with no check of its fields; otherwise the result is the fallback |
| LlmClient.GenerateJson | app/services/llm_client.py:48-73 | it raises iff the model call raises; otherwise it is the extraction from the reply to the JSON-mode prompt |
| LlmClient.ProseYieldsNothing | app/services/llm_client.py:64-73 | a reply with no `{` whose candidate fails to parse gives None |
| Records.OrDefault | app/services/recommendation_engine.py:57-59 | `x or default` on a nullable text column, used here and for `repo.language or 'unknown'` (app/services/profile_analyzer.py:56): the value when non-null and non-empty, otherwise the default |
| ProfileAnalyzer.DescriptionText | app/services/profile_analyzer.py:55 | the first 100 characters of the description, or all of it when shorter |
| ProfileAnalyzer.TopicsTextFirstFive | app/services/profile_analyzer.py:53-54 | "no topics" for no topics; otherwise the text splits back into the first five topics |
| ProfileAnalyzer.FormatRepoLines | app/services/profile_analyzer.py:51-56 | the loop builds one line per repository, in order, in the `- name (language): description [Topics: ...]` format |
| ProfileAnalyzer.RepoLineNoBreak | app/services/profile_analyzer.py:56 | a line holds no newline when its fields hold none |
| ProfileAnalyzer.PromptLinesRecoverable | app/services/profile_analyzer.py:58 | splitting the joined prompt text at newlines gives back exactly the lines |
| ProfileAnalyzer.ProfileReposFacts | app/services/profile_analyzer.py:39-45 | at most 100 of the user's own repositories feed the prompt, most stars first; all of them when there are at most 100 |
| ProfileAnalyzer.BuildTasteProfile | app/services/profile_analyzer.py:34-74 | returns the parsed reply, or None for a user without stars; the users table becomes the stored outcome |
| ProfileAnalyzer.StoreProfile | app/services/profile_analyzer.py:65-74 | only a truthy profile is written, together with its timestamp; a truthy profile for a missing user row raises |
| ProfileAnalyzer.NoReposNoProfile | app/services/profile_analyzer.py:47-48 | a user with no starred repositories gets None and no write |
| ProfileAnalyzer.StoredOnlyWhenTruthy | app/services/profile_analyzer.py:65-72 | the users table changes only on a truthy result; it then holds that profile and timestamp for the user, and every other user is untouched |
| ProfileAnalyzer.OutcomeStorable | app/services/profile_analyzer.py:67-68 | a truthy outcome that did not raise belongs to an existing user row |
| ProfileAnalyzer.StoredFacts | app/services/profile_analyzer.py:65-72 | storing keeps every user and every access token, and changes at most the profile and timestamp of that one user |
| ProfileAnalyzer.FormatProfileForDisplay | app/services/profile_analyzer.py:77-90 | "No profile available" for a falsy profile; a truthy non-object raises; on success every field lookup succeeded |
| ProfileAnalyzer.DisplaySixLines | app/services/profile_analyzer.py:82-90 | the display has six lines: summary, a blank line, then interests, languages, project types and themes |
| ProfileAnalyzer.DisplayDefaults | app/services/profile_analyzer.py:83-88 | missing fields show "N/A" for the summary and empty lists elsewhere |
| RecommendationEngine.ProfileText | app/services/recommendation_engine.py:42-48 | a profile that is not an object raises |
| RecommendationEngine.Texts | app/services/recommendation_engine.py:50-61 | missing fields become "No description", "No topics", "Unknown" and 0 stars |
| RecommendationEngine.ToFloat | app/services/recommendation_engine.py:66 | `float()` keeps numbers, maps booleans to 1/0, parses strings, and raises on anything else |
| RecommendationEngine.CoerceReply | app/services/recommendation_engine.py:63-69 | a falsy reply gives None, a truthy non-object raises, a missing score is 0 and a missing explanation is "" |
| RecommendationEngine.ScoreCandidate | app/services/recommendation_engine.py:36-69 | scoring against a profile that is not an object raises |
| RecommendationEngine.Kept | app/services/recommendation_engine.py:98-116 | every candidate scoring at least 0.4 is kept with its own score and explanation, every kept entry scored at least 0.4 and comes from the candidates, and the loop fails only when some candidate's scoring raised |
| RecommendationEngine.KeptIsFilter | app/services/recommendation_engine.py:98-116 | the kept entries' candidates are exactly the passing candidates, in the order they were scored, with nothing added or repeated |
| RecommendationEngine.KeptEntriesOwnScore | app/services/recommendation_engine.py:108-116 | every kept entry passed the threshold and carries its own candidate's score and explanation |
| RecommendationEngine.KeptSnoc | app/services/recommendation_engine.py:108-116 | one more scored candidate extends the kept list by its entry exactly when it passes |
| RecommendationEngine.KeptErrorSticks | app/services/recommendation_engine.py:110 | an exception on one candidate is the exception of the whole loop |
| RecommendationEngine.ScoreAll | app/services/recommendation_engine.py:98-116 | the scoring loop computes the kept list |
| RecommendationEngine.BuildRows | app/services/recommendation_engine.py:126-145 | the insert loop builds one row per kept entry, with consecutive ids and one batch id |
| RecommendationEngine.GenerateRecommendations | app/services/recommendation_engine.py:72-149 | returns the ranked batch; the table gains exactly that batch when it commits, and is unchanged otherwise |
| RecommendationEngine.NothingToScore | app/services/recommendation_engine.py:80-95 | no user, no profile or no candidates: [] and no write |
| RecommendationEngine.TopCandidatesFacts | app/services/recommendation_engine.py:86-92 | at most 50 of the user's candidates are scored, highest source_count first |
| RecommendationEngine.RankedFacts | app/services/recommendation_engine.py:119-120 | the batch is sorted by score, stable, a permutation of the kept entries, and cut to top_n |
| RecommendationEngine.KeptScoresPass | app/services/recommendation_engine.py:111 | every entry of the batch scored at least 0.4 |
| RecommendationEngine.UnclampedScoreKept | app/services/recommendation_engine.py:63-116 | a reply `{"score": x}` with x ≥ 0.4 is kept with score x and stored with relevance_score x, even above 1.0 (see Findings) |
| RecommendationEngine.ScoreOnlyReply | app/services/recommendation_engine.py:64-68 | a reply holding only a score keeps that score, with explanation "" |
| RecommendationEngine.KeptOne | app/services/recommendation_engine.py:110-116 | one passing candidate is kept as it was scored |
| RecommendationEngine.ClampedScore | app/services/recommendation_engine.py:111 | the intended score lies in [0, 1], equals the reply's score there, and is 1.0 above it (see Findings) |
| RecommendationEngine.ClampedScoreKeepsOrder | app/services/recommendation_engine.py:111-119 | clamping keeps both the 0.4 threshold and the ranking order |
| RecommendationEngine.AppendOnly | app/services/recommendation_engine.py:123-147 | earlier recommendations are kept as a prefix; new rows carry the user, the batch id and the creation time |
| RecommendationEngine.KeptUnique | app/models/recommendation.py:39-41 | candidates unique by repository give kept entries unique by repository |
| RecommendationEngine.TopCandidatesUnique | app/models/repository.py:41-43 | the scored candidates are unique by repository |
| RecommendationEngine.RankedUnique | app/models/recommendation.py:39-41 | ranking keeps the entries unique |
| RecommendationEngine.PlanUnique | app/models/recommendation.py:39-41 | a batch holds each repository once, all of them the user's |
| RecommendationEngine.FreshBatchCommits | app/services/recommendation_engine.py:123-147 | a batch under a fresh id always commits |
| SimilarUsers.CountLogins | app/services/similar_users.py:44-45 | the loop adds one to a login's tally for each occurrence |
| SimilarUsers.CounterOfCounts | app/services/similar_users.py:38-45 | the counter lists each login once in first-seen order, with its number of occurrences |
| SimilarUsers.Tally | app/services/similar_users.py:49 | each login seen appears once, with its number of occurrences |
| SimilarUsers.ItemsTally | app/services/similar_users.py:49 | the counter's items are that tally |
| SimilarUsers.CountAll | app/services/similar_users.py:40-45 | the tally counts every stargazer list read |
| SimilarUsers.Qualifying | app/services/similar_users.py:49-56 | the entries are exactly the items with a tally of at least 3, in order |
| SimilarUsers.RankSimilar | app/services/similar_users.py:48-59 | the loop keeps the qualifying items and caps them at max_similar_users |
| SimilarUsers.RankWindowHarmless | app/services/similar_users.py:49-59 | taking the 2×max most common before filtering changes nothing |
| SimilarUsers.QualifyingSorted | app/services/similar_users.py:49-56 | the entries are ordered by overlap_count, descending |
| SimilarUsers.QualifiedTallyExact | app/services/similar_users.py:49-56 | every login with a tally of at least 3 is an entry, with its tally and percentage |
| SimilarUsers.RankedFacts | app/services/similar_users.py:49-59 | at most max entries, each with a tally ≥ 3, in descending order, no login twice; all qualifying logins appear when fewer than max qualify |
| SimilarUsers.RankedDistinct | app/services/similar_users.py:49-59 | no login appears twice |
| SimilarUsers.PercentageBound | app/services/similar_users.py:51 | a login's percentage is at most that of appearing in every list read |
| SimilarUsers.PercentageMonotone | app/services/similar_users.py:51 | a larger overlap never gives a smaller percentage |
| SimilarUsers.FullOverlapIsSixtyPercent | app/services/similar_users.py:51 | as written, a login in all 30 sampled lists of a user with 50 top repositories scores only 60 % (see Findings) |
| SimilarUsers.SampledPercentageBound | app/services/similar_users.py:51 | over the lists actually sampled, the percentage is at most 100 and full overlap is exactly 100 (see Findings) |
| SimilarUsers.SimilarRows | app/services/similar_users.py:66-74 | one row per entry, each with similar_github_id 0 |
| SimilarUsers.DeclaredConstraintRejectsRows | app/models/recommendation.py:17-19 | two or more such rows break the declared unique (user_id, similar_github_id) |
| SimilarUsers.SimilarRowsUnique | app/services/similar_users.py:66-76 | the rows are unique by (user_id, login) |
| SimilarUsers.SplitFullName | app/services/similar_users.py:41 | `owner, name = full_name.split("/")` succeeds iff there is exactly one slash, and the parts rejoin to the name |
| SimilarUsers.FullNameRoundTrip | app/services/similar_users.py:41 | "owner/name" splits back into owner and name |
| SimilarUsers.SampleStepBadName | app/services/similar_users.py:41 | a full name without exactly one slash ends the reading with the unpacking error, and the cache is untouched |
| SimilarUsers.SampleStepFailed | app/services/similar_users.py:42 | a stargazer request that raises ends the reading with that error; cache writes made before it stay |
| SimilarUsers.SampleStepRead | app/services/similar_users.py:40-45 | a list read through the cache joins the lists so far, and the reading goes on from the next repository with the cache as updated |
| SimilarUsers.ReadStargazers | app/services/similar_users.py:40-42 | the loop reads the stargazer lists of the sample, and the cache afterwards is the sampling's |
| SimilarUsers.DiscoverSimilarUsers | app/services/similar_users.py:14-78 | returns the ranked entries; the user's similar rows become exactly those entries when the user has stars; no other table and not the user-starred cache changes |
| SimilarUsers.StoreSimilar | app/services/similar_users.py:62-78 | the user's rows are replaced by the ranked entries and nothing else changes |
| SimilarUsers.DiscoveryFailsAsWritten | app/services/similar_users.py:62-76 | as written, two or more entries make the commit raise, and the old rows stay (see Findings) |
| SimilarUsers.DeclaredReplacementClashes | app/services/similar_users.py:64-76 | the delete-then-insert breaks the declared constraint for two or more entries |
| SimilarUsers.DiscoveryCommitsAsWrittenWhenAlone | app/services/similar_users.py:62-76 | as written, discovery still succeeds with at most one entry |
| SimilarUsers.IndexOf | app/services/similar_users.py:112 | `repo_id in candidate_counts`: the first position of that repository, or none |
| SimilarUsers.AggregateFacts | app/services/similar_users.py:107-125 | no candidate is already starred; source_count equals the number of source users, which are listed in visiting order; first-seen metadata is kept; ids are unique |
| SimilarUsers.SortedIdsUnique | app/services/similar_users.py:128 | sorting keeps the candidates unique |
| SimilarUsers.CandidateRows | app/services/similar_users.py:135-146 | one row per candidate, without its source users |
| SimilarUsers.CandidateRowsUnique | app/models/repository.py:41-43 | the candidate rows are unique by (user_id, github_repo_id) |
| SimilarUsers.CollectStep | app/services/similar_users.py:104-105 | one round of the gathering loop: a read-through of up to 2 pages of that user's stars |
| SimilarUsers.CollectedLength | app/services/similar_users.py:104-105 | one list per similar user |
| SimilarUsers.ReadStarredOfSimilar | app/services/similar_users.py:104-105 | the loop reads every similar user's stars, and the cache afterwards is the gathering's |
| SimilarUsers.AddRepo | app/services/similar_users.py:108-125 | one dictionary update increments an existing entry or adds a new one |
| SimilarUsers.AddRepos | app/services/similar_users.py:107-125 | the inner loop adds one user's repositories |
| SimilarUsers.CollectCandidates | app/services/similar_users.py:104-125 | the dictionary built in place, read in insertion order, is the aggregate of all sightings |
| SimilarUsers.GatherCandidateRepos | app/services/similar_users.py:81-150 | returns the top 100 by source_count; the user's stored candidates become the top 200 when there are similar users |
| SimilarUsers.StoreCandidates | app/services/similar_users.py:127-148 | sorts stably by source_count and replaces the user's rows with the top 200 |
| GithubRouter.SessionUser | app/routers/github.py:13-23 | 401 without a session user id, 404 for an unknown user, and otherwise that user |
| GithubRouter.StartGuard | app/routers/github.py:96-106 | a start passes iff the user has no running job of that kind; exactly one running job gives 400, and two or more give 500 because `scalar_one_or_none` raises |
| GithubRouter.SyncStarsGuarded | app/routers/github.py:90-109 | `sync_stars` starts iff no sync is running, and rejects one running sync with 400 |
| GithubRouter.StarredRow | app/routers/github.py:59-68 | a missing topics list is stored as [] |
| GithubRouter.BuildStarredRows | app/routers/github.py:58-69 | the insert loop builds one row per fetched repository |
| GithubRouter.SyncStarredReposTask | app/routers/github.py:26-87 | appends one job row, which ends as the fetch dictates; the starred rows are replaced only when the sync commits |
| GithubRouter.SyncJobSettles | app/routers/github.py:28-87 | the row ends completed at 100 or failed; a failed fetch leaves it at 0 and a failed commit at 50 |
| GithubRouter.SyncReplacesStars | app/routers/github.py:54-69 | a committed sync leaves the user exactly the fetched repositories, and other users are untouched |
| GithubRouter.LatestJobFacts | app/routers/github.py:112-135 | the status shown is that of the user's job of that kind created last, or none when there is none |
| GithubRouter.StarredPage | app/routers/github.py:138-164 | one item per row of the ordered, paged query, with topics decoded |
| GithubRouter.StarredPageFacts | app/routers/github.py:143-151 | at most `limit` of the user's own rows, in descending star order |
| GithubRouter.TopicsRoundTrip | app/routers/github.py:64 | a synced repository is listed with the topics, id and stars it was fetched with |
| RecommendationsRouter.ScoringStage | app/routers/recommendations.py:79-97 | progress 80, then scoring, and the row ends completed or failed |
| RecommendationsRouter.CandidateStart | app/routers/recommendations.py:65-77 | progress 60, then candidate gathering against the user's starred ids |
| RecommendationsRouter.AfterGathering | app/routers/recommendations.py:79-106 | scoring runs only when gathering succeeded; a raise fails the row |
| RecommendationsRouter.CandidateStage | app/routers/recommendations.py:65-106 | gathering and then scoring, or a failed row |
| RecommendationsRouter.SimilarStart | app/routers/recommendations.py:55-63 | progress 30, then discovery; nothing but the similar rows and the stargazer cache changes |
| RecommendationsRouter.AfterDiscovery | app/routers/recommendations.py:63-106 | the later stages run only after a successful discovery |
| RecommendationsRouter.SimilarStage | app/routers/recommendations.py:55-106 | discovery, then the later stages, ending in one terminal write |
| RecommendationsRouter.ProfileStart | app/routers/recommendations.py:45-53 | progress 10, then the profile build |
| RecommendationsRouter.AfterProfile | app/routers/recommendations.py:53-106 | a raising profile build fails the row and no later stage runs |
| RecommendationsRouter.ProfileStage | app/routers/recommendations.py:45-106 | every stage in order, the first raise ending the run |
| RecommendationsRouter.BuildProfile | app/routers/recommendations.py:53 | the pipeline's profile step is `build_taste_profile` |
| RecommendationsRouter.FullRecommendationPipeline | app/routers/recommendations.py:28-106 | appends one generate_recs row; the tables change exactly as the stages reached dictate, and earlier effects are not undone |
| RecommendationsRouter.PipelineJobSettles | app/routers/recommendations.py:44-106 | the row ends completed at 100 iff every stage succeeded; otherwise it fails at the milestone of the stage that raised (10, 30, 60 or 80) with that stage's message |
| RecommendationsRouter.PipelineFailsAsWritten | app/routers/recommendations.py:55-106 | as written, discovery of two or more similar users fails the job at 30 (see Findings) |
| RecommendationsRouter.GenerateGuarded | app/routers/recommendations.py:109-143 | `generate` starts iff the user has stars and no running pipeline, with 400 for each refusal |
| RecommendationsRouter.AnalyzeReply | app/routers/recommendations.py:291-309 | profile analysis starts iff the user has starred repositories |
| RecommendationsRouter.ProfileReply | app/routers/recommendations.py:280-288 | the stored profile, or none before one was built |
| RecommendationsRouter.FeedbackFor | app/routers/recommendations.py:208-213 | the feedback shown for a recommendation is a stored row's type, and none when no row exists |
| RecommendationsRouter.ListRecommendations | app/routers/recommendations.py:172-231 | one item per listed row, with topics decoded and the user's feedback attached |
| RecommendationsRouter.ListedFacts | app/routers/recommendations.py:179-204 | at most `limit` of the user's rows, all of the chosen batch, by descending relevance |
| RecommendationsRouter.PageOfRanking | app/routers/recommendations.py:197-201 | a page of the relevance ordering is ordered and drawn from the selection |
| RecommendationsRouter.LatestBatchIsLatest | app/routers/recommendations.py:185-195 | without a batch id, the batch is that of a row created no earlier than any other of the user's rows |
| RecommendationsRouter.FeedbackCheck | app/routers/recommendations.py:239-254 | an invalid type gives 400; a recommendation the user does not own gives 404 |
| RecommendationsRouter.FeedbackIndex | app/routers/recommendations.py:257-263 | the existing feedback row for (user, recommendation), if any |
| RecommendationsRouter.SubmitFeedback | app/routers/recommendations.py:234-277 | a refused request writes nothing; an accepted one updates the existing row or inserts a new one |
| RecommendationsRouter.UpsertKeepsUnique | app/routers/recommendations.py:256-275 | after the upsert there is one row per (user, recommendation), holding the new type, and all other feedback is unchanged |
| Scheduler.RefreshJobSettles | app/tasks/scheduler.py:44-151 | the refresh row ends completed at 100 iff every step succeeded; otherwise it fails at the milestone reached (0, 20, 40, 60 or 80) with that step's message |
| Scheduler.RefreshFailsAsWritten | app/tasks/scheduler.py:102-151 | as written, discovery of two or more similar users fails the refresh at 40 (see Findings) |
| Scheduler.SyncStars | app/tasks/scheduler.py:59-83 | the sync step replaces the user's starred rows wholesale when its commit succeeds |
| Scheduler.SyncStep | app/tasks/scheduler.py:59-151 | the sync, then the later steps only when it succeeded |
| Scheduler.SyncedStep | app/tasks/scheduler.py:85-151 | progress 20, then the later steps |
| Scheduler.ProfileStep | app/tasks/scheduler.py:91-151 | the profile build, then the later steps |
| Scheduler.ProfileUpdatedStep | app/tasks/scheduler.py:95-151 | progress 40 only after a successful profile build |
| Scheduler.SimilarStep | app/tasks/scheduler.py:102-151 | discovery, then the later steps |
| Scheduler.SimilarFoundStep | app/tasks/scheduler.py:106-151 | progress 60 only after a successful discovery |
| Scheduler.CandidateStep | app/tasks/scheduler.py:113-151 | gathering, then scoring |
| Scheduler.GatheredStep | app/tasks/scheduler.py:121-151 | progress 80 only after successful gathering |
| Scheduler.ScoreStep | app/tasks/scheduler.py:128-151 | scoring, then the terminal write |
| Scheduler.ProfileKeepsAccounts | app/tasks/scheduler.py:93 | building a profile keeps every user and every access token |
| Scheduler.RefreshKeepsOthers | app/tasks/scheduler.py:58-139 | a refresh keeps every account and every other user's starred rows |
| Scheduler.StartRefresh | app/tasks/scheduler.py:43-151 | appends one scheduled_refresh row, which ends as the steps dictate |
| Scheduler.RefreshUserRecommendations | app/tasks/scheduler.py:21-151 | an unknown user, one without a token, or one without stars is skipped with no row and no write; otherwise one refresh runs |
| Scheduler.OwnsStarred | app/tasks/scheduler.py:159-163 | a user owns a starred row iff they appear in the join |
| Scheduler.RefreshUserIds | app/tasks/scheduler.py:158-164 | each user with starred repositories appears once, and no other id appears |
| Scheduler.WithToken | app/tasks/scheduler.py:168-175 | the users who get a row are exactly the listed users holding a token |
| Scheduler.EligibleAtTurn | app/tasks/scheduler.py:25-39 | a user with stars is refreshed iff they hold a token, whatever the refreshes before them did, since those keep accounts and other users' stars |
| Scheduler.RefreshTurn | app/tasks/scheduler.py:168-175 | one turn of the loop adds at most that user's settled row and keeps the other users' accounts and stars |
| Scheduler.WeeklyRefreshAllUsers | app/tasks/scheduler.py:154-177 | visits each distinct user with stars once, in order, and leaves one settled row per user holding a token |
| Scheduler.DayOfWeek | app/tasks/scheduler.py:183-193 | the day name is matched case-insensitively to 0..6, and an unknown name gives 6 |
| Scheduler.DayNamesSelectTheirDay | app/tasks/scheduler.py:183-193 | distinct day names give distinct days; monday is 0 and sunday is 6 |
| Scheduler.DefaultDayIsSunday | app/tasks/scheduler.py:193 | "sunday" in any case is day 6 |
| Scheduler.AsyncScheduler.AddJob | app/tasks/scheduler.py:198-204 | `replace_existing=True`: the job under that id is the new one |
| Scheduler.SetupScheduler | app/tasks/scheduler.py:180-208 | one cron job "weekly_refresh" is registered on the parsed day, at the configured hour, minute 0 |

## Left out

- Transport: the retry and backoff timing of `_request` and `generate`, the endpoint fallback inside `generate`, and `health_check`. The API and the text model are parameters that give the outcome after these layers.
- `get_rate_limit` and the `/rate-limit` route: they pass one response through with no logic.
- OAuth login and sessions: these are `app/routers/auth.py`, which is not part of this model. The session is a parameter holding the user id.
- Redis TTLs and expiry: the cache never expires here.
- Redis connection failure in `get_github_client`: the cache is simply present or absent.
- Sleeping: `asyncio.sleep` after each user and the rate-limit sleep. `RequestAction` states when a sleep happens and how long it lasts, but the re-request after the sleep is part of the API parameter.
- APScheduler firing, `start_scheduler` and `stop_scheduler`: these are timing, not logic. `SetupScheduler` records the trigger; `CronTrigger` never rejects an hour here.
- Concurrency: the check-then-insert race between two background tasks. Every operation runs alone.
- Floating point: `round(overlap_percentage, 2)`, the binary representation of scores, NaN and infinities. Percentages and scores are exact reals. `ToFloat` takes the string parser as a parameter.
- `uuid.uuid4()` and `datetime.utcnow()`: they are parameters. `created_at` is the supplied start time.
- `json.dumps`/`json.loads` of `taste_profile` and `topics`: the columns hold the decoded value.
- GithubRouter.StarredRow: a payload whose `"topics"` is JSON null is stored here as the empty list. `json.dumps(None)` stores the text "null", which `get_starred` (app/routers/github.py:159) reads back as None, not []. Gathered candidates treat null topics the same way.
- RecommendationEngine.GenerateRecommendations: it stores an explanation of any JSON kind. The source binds `rec["explanation"]` to a Text column (app/services/recommendation_engine.py:142), so a list or object explanation makes the commit raise, and the model does not capture that raise.
- GithubRouter.SyncStarredReposTask: a job that fails records a fixed text for a uniqueness clash (`DuplicateStarred`), where the source records `str(e)` with the SQL statement.
- RecommendationEngine.Outcome: a batch that clashes records the fixed text `DuplicateRecommendation` instead of `str(e)`.
- GithubClient.RetryErrorText: this is not tenacity's exact `RetryError` message, which also names a future object.
- Text.Lower: only ASCII letters are case-folded. Every day name is ASCII.
- Text.Strip: this follows Python's whitespace set as listed in `Text.IsSpace`.
- SQL result order: rows with equal sort keys come out in table order, and NULL star counts sort last (SQLite's DESC). `SELECT DISTINCT` returns users in first-appearance order. SQLite guarantees neither order.
- Row ids: the autoincrement id of starred and candidate rows is not modelled. Job and recommendation ids are positions in their tables.
- The scheduler's client cache and `get_github_client` calls: each stage reads the same API parameter.
- `get_user_from_session` exists twice, once in each router (app/routers/recommendations.py:15-25 and app/routers/github.py:13-23); `GithubRouter.SessionUser` models both.
- The `except` in `weekly_refresh_all_users` (app/tasks/scheduler.py:173-175) never fires here: `refresh_user_recommendations` catches every exception of its own steps, and the lookups before those steps cannot raise in this model.
- SimilarUsers.DiscoverSimilarUsers: the rest of the model keeps the source's percentage divisor, the count of top repositories read. It keeps the unclamped score too. Findings gives the intended versions, and they are not wired in.
- The `pending` job status: it is declared but never written, so the model has no value for it.

## Findings

| source | as written | input that shows it | evidently intended | confidence | as-written member | corrected member |
|---|---|---|---|---|---|---|
| app/services/similar_users.py:69 | every similar-user row gets `similar_github_id=0`, while the table is declared unique on (user_id, similar_github_id) (app/models/recommendation.py:17-19), so the commit at line 76 raises for two or more rows. The discovery then fails the pipeline job at 30 and the scheduled refresh at 40, and no candidates or recommendations are produced | a user whose sampled stargazer lists contain two logins that each appear in at least 3 lists | one row per similar login, unique by (user_id, login) | high, not executed | SimilarUsers.DiscoveryFailsAsWritten | SimilarUsers.SimilarRowsUnique |
| app/services/github_client.py:39 | `@retry(stop=stop_after_attempt(3))` without `reraise=True` turns a persistent HTTP status error into `tenacity.RetryError`. So `except httpx.HTTPStatusError` at lines 94 and 120 never matches, and a missing repository or private user makes the whole discovery or gathering raise | a stargazer request that answers 404 on every attempt, on a cache miss | a status error gives [] for stargazers and ends the page loop for a user's stars | high, not executed | GithubClient.StargazerStatusErrorEscapes | GithubClient.StargazersResult |
| app/services/recommendation_engine.py:66 | the score is `float(result.get("score", 0))` with no upper bound, although the prompt asks for 0.0 to 1.0. Line 111 keeps any score ≥ 0.4, and the row stores it unchanged | a reply `{"score": 2.0}` is kept and stored with relevance_score 2.0, above every correctly scored repository | a score clamped to [0, 1], which keeps the 0.4 threshold and the order | medium, not executed | RecommendationEngine.UnclampedScoreKept | RecommendationEngine.ClampedScore |
| app/services/similar_users.py:51 | the percentage divides by `len(starred_repos)`, up to 50 repositories read, although stargazers are sampled from only the first 30 (line 40) | a user with 50 top repositories and a login present in all 30 sampled lists gets 60.0 % | the overlap share of the repositories sampled, at most 100 % and exactly 100 % for full overlap | medium, not executed | SimilarUsers.FullOverlapIsSixtyPercent | SimilarUsers.SampledPercentageBound |

For the first row:
- The model's database enforces the intended key (user_id, login), so `DiscoverSimilarUsers` and the pipelines built on it commit.
- `SimilarUsers.DiscoverAsWritten` keeps the declared key. With it, `RecommendationsRouter.PipelineFailsAsWritten` and `Scheduler.RefreshFailsAsWritten` carry the failure to the job rows.

For the second row:
- `StargazersResult` and `UserStarredResult` are the intended behaviour, and the model uses them.
- `GithubClient.UserStarredStatusErrorEscapes` shows the same escape for a user's stars.
