/**
 * The rows of the pipeline's tables and the repository records the GitHub API
 * hands back.  Each table's uniqueness constraint is given by a key function
 * whose first component is the owning user: a table satisfies its constraint
 * when no two rows share a key (`Tables.UniqueBy`).
 *
 * A `topics` column holds `json.dumps(list)` of a list of strings or SQL NULL;
 * it is modelled decoded, as `Some(list)` or `None`.  A `taste_profile`
 * column holds `json.dumps(profile)`, modelled as the decoded `Json` value.
 * Timestamps are integers supplied by the caller.
 */
module Records {
  import opened Wrappers
  import opened Json

  /** A repository as the GitHub API returns it; `None` stands for a key the payload lacks or a `null`. */
  datatype GhRepo = GhRepo(
    id: int,
    fullName: string,
    description: Option<string>,
    topics: Option<seq<string>>,
    language: Option<string>,
    stargazersCount: Option<int>,
    forksCount: Option<int>)

  /** `value or default` for a nullable text column: NULL and the empty string both give the default. */
  function OrDefault(s: Option<string>, default: string): (r: string)
    ensures s.Some? && s.value != "" ==> r == s.value
    ensures s.None? || s.value == "" ==> r == default
  {
    if s.Some? && s.value != "" then s.value else default
  }

  /** `repo.get("topics", [])`. */
  function TopicsOrEmpty(repo: GhRepo): (r: seq<string>)
    ensures repo.topics.None? ==> r == []
    ensures repo.topics.Some? ==> r == repo.topics.value
  {
    repo.topics.GetOr([])
  }

  /** `json.loads(column) if column else []` for a `topics` column. */
  function DecodeTopics(column: Option<seq<string>>): (r: seq<string>)
    ensures column.None? ==> r == []
    ensures column.Some? ==> r == column.value
  {
    column.GetOr([])
  }

  /** A user: the access token may be empty; the taste profile is absent until one is stored. */
  datatype User = User(
    id: int,
    githubUsername: string,
    accessToken: string,
    tasteProfile: Option<Json>,
    tasteProfileUpdatedAt: Option<int>)

  /** A row of `starred_repos`; `github_repo_id` and `full_name` are required. */
  datatype StarredRepo = StarredRepo(
    userId: int,
    githubRepoId: int,
    fullName: string,
    description: Option<string>,
    topics: Option<seq<string>>,
    language: Option<string>,
    starsCount: Option<int>,
    forksCount: Option<int>)

  /** `starred_repos` is unique on `(user_id, github_repo_id)`. */
  function StarredKey(r: StarredRepo): (int, int) {
    (r.userId, r.githubRepoId)
  }

  /** A row of `candidate_repos`; there is no column for the contributing users. */
  datatype CandidateRepo = CandidateRepo(
    userId: int,
    githubRepoId: int,
    fullName: string,
    description: Option<string>,
    topics: Option<seq<string>>,
    language: Option<string>,
    starsCount: Option<int>,
    sourceCount: int)

  /** The column default of `candidate_repos.source_count`. */
  const DefaultSourceCount: int := 1

  /** `candidate_repos` is unique on `(user_id, github_repo_id)`. */
  function CandidateKey(r: CandidateRepo): (int, int) {
    (r.userId, r.githubRepoId)
  }

  /** A row of `similar_users`; the percentage is kept exact (no rounding). */
  datatype SimilarUser = SimilarUser(
    userId: int,
    similarGithubId: int,
    similarGithubUsername: string,
    overlapCount: int,
    overlapPercentage: real)

  /** The constraint `similar_users` declares: unique on `(user_id, similar_github_id)`. */
  function SimilarDeclaredKey(r: SimilarUser): (int, int) {
    (r.userId, r.similarGithubId)
  }

  /**
   * The constraint the similar-user rows can meet: unique on
   * `(user_id, similar_github_username)`.  The database of this model
   * enforces this one.
   */
  function SimilarKey(r: SimilarUser): (int, string) {
    (r.userId, r.similarGithubUsername)
  }

  /**
   * A row of `recommendations`; `relevance_score` and `batch_id` are required.
   * The explanation is whatever the scoring reply held under "explanation".
   */
  datatype Recommendation = Recommendation(
    id: int,
    userId: int,
    githubRepoId: int,
    fullName: string,
    description: Option<string>,
    topics: Option<seq<string>>,
    language: Option<string>,
    starsCount: Option<int>,
    relevanceScore: real,
    explanation: Json,
    sourceUsers: Option<seq<string>>,
    batchId: string,
    createdAt: int)

  /** `recommendations` is unique on `(user_id, github_repo_id, batch_id)`. */
  function RecommendationKey(r: Recommendation): (int, (int, string)) {
    (r.userId, (r.githubRepoId, r.batchId))
  }

  /** The three kinds of feedback. */
  datatype FeedbackType = ThumbsUp | ThumbsDown | Dismiss

  function FeedbackTypeName(t: FeedbackType): string {
    match t
    case ThumbsUp => "thumbs_up"
    case ThumbsDown => "thumbs_down"
    case Dismiss => "dismiss"
  }

  /** The feedback type a request names, if it names one of the three. */
  function ParseFeedbackType(s: string): (r: Option<FeedbackType>)
    ensures r.None? <==> s !in {"thumbs_up", "thumbs_down", "dismiss"}
  {
    if s == "thumbs_up" then Some(ThumbsUp)
    else if s == "thumbs_down" then Some(ThumbsDown)
    else if s == "dismiss" then Some(Dismiss)
    else None
  }

  /** Parsing and naming a feedback type are inverse to each other. */
  lemma FeedbackTypeRoundTrip(t: FeedbackType, s: string)
    ensures ParseFeedbackType(FeedbackTypeName(t)) == Some(t)
    ensures ParseFeedbackType(s) == Some(t) ==> FeedbackTypeName(t) == s
  {
  }

  /** A row of `feedback`. */
  datatype Feedback = Feedback(userId: int, recommendationId: int, feedbackType: FeedbackType)

  /** `feedback` is unique on `(user_id, recommendation_id)`. */
  function FeedbackKey(r: Feedback): (int, int) {
    (r.userId, r.recommendationId)
  }

  /** The states a job row can be in. */
  datatype Status = Pending | Running | Completed | Failed

  const SyncStarsJob: string := "sync_stars"
  const GenerateRecsJob: string := "generate_recs"
  const ScheduledRefreshJob: string := "scheduled_refresh"

  /** A row of `job_status`. */
  datatype JobStatus = JobStatus(
    id: int,
    userId: int,
    jobType: string,
    status: Status,
    progress: int,
    message: Option<string>,
    startedAt: Option<int>,
    completedAt: Option<int>,
    createdAt: int)

  /** The column default of `job_status.progress`. */
  const DefaultProgress: int := 0
}
