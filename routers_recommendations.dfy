/**
 * The recommendation endpoints: the four-stage pipeline with its job row,
 * the guards in front of it, the listing of the latest batch, feedback, and
 * the profile endpoints.  The session lookup is the one of the GitHub
 * endpoints, which this router repeats word for word.
 */
module RecommendationsRouter {
  import opened Wrappers
  import opened Json
  import opened Records
  import opened Tables
  import opened Seqs
  import Text
  import opened GithubClient
  import opened GithubRouter
  import ProfileAnalyzer
  import SimilarUsers
  import RecommendationEngine

  const NoStars: string := "No starred repos found. Please sync your stars first."
  const PipelineBusy: string := "Recommendation generation already in progress"

  // ---------------------------------------------------------------------
  // The pipeline
  // ---------------------------------------------------------------------

  const StartingMessage: string := "Starting recommendation pipeline..."
  const ProfileMessage: string := "Analyzing your starred repos..."
  const SimilarMessage: string := "Finding users with similar taste..."
  const CandidateMessage: string := "Discovering candidate repositories..."
  const ScoringMessage: string := "Scoring recommendations with AI..."

  /** `f"Generated {len(recommendations)} recommendations!"`. */
  function GeneratedMessage(n: nat): string {
    "Generated " + Text.NatToString(n) + " recommendations!"
  }

  /** `set(r[0] for r in ...)` over the user's starred repository ids. */
  function StarredIds(starred: seq<StarredRepo>, userId: int): set<int> {
    var mine := OfUser(starred, StarredKey, userId);
    set k | 0 <= k < |mine| :: mine[k].githubRepoId
  }

  /** How each stage of one pipeline run ended; a stage after a failed one does not run. */
  datatype Stages = Stages(
    profile: Result<Option<Json>>,
    similar: Result<seq<SimilarUsers.SimilarEntry>>,
    candidates: Result<seq<SimilarUsers.Candidate>>,
    scored: Result<seq<RecommendationEngine.Scored>>)

  /** The progress write made before a stage starts. */
  function Staged(job: JobStatus, progress: int, message: string): JobStatus {
    job.(progress := progress, message := Some(message))
  }

  /** The failure write: status failed, the error's text, the completion time; progress stays where it was. */
  function FailedJob(job: JobStatus, message: string, finish: int): JobStatus {
    job.(status := Failed, message := Some(message), completedAt := Some(finish))
  }

  /** The job row from the scoring stage on: failed at 80, or completed at 100 with the count. */
  function ScoredJob(job: JobStatus, scored: Result<seq<RecommendationEngine.Scored>>, finish: int): JobStatus {
    var j := Staged(job, 80, ScoringMessage);
    if scored.Err? then FailedJob(j, scored.message, finish)
    else j.(status := Completed, progress := 100, message := Some(GeneratedMessage(|scored.value|)),
            completedAt := Some(finish))
  }

  /** The job row from the candidate stage on. */
  function GatheredJob(job: JobStatus, candidates: Result<seq<SimilarUsers.Candidate>>,
                       scored: Result<seq<RecommendationEngine.Scored>>, finish: int): JobStatus {
    var j := Staged(job, 60, CandidateMessage);
    if candidates.Err? then FailedJob(j, candidates.message, finish) else ScoredJob(j, scored, finish)
  }

  /** The job row from the similar-users stage on. */
  function DiscoveredJob(job: JobStatus, similar: Result<seq<SimilarUsers.SimilarEntry>>,
                         candidates: Result<seq<SimilarUsers.Candidate>>,
                         scored: Result<seq<RecommendationEngine.Scored>>, finish: int): JobStatus {
    var j := Staged(job, 30, SimilarMessage);
    if similar.Err? then FailedJob(j, similar.message, finish) else GatheredJob(j, candidates, scored, finish)
  }

  /** The job row from the profile stage on. */
  function AnalyzedJob(job: JobStatus, s: Stages, finish: int): JobStatus {
    var j := Staged(job, 10, ProfileMessage);
    if s.profile.Err? then FailedJob(j, s.profile.message, finish)
    else DiscoveredJob(j, s.similar, s.candidates, s.scored, finish)
  }

  /** The pipeline's job row once the run ends: created running at 0, then as the stages left it. */
  function PipelineJob(id: int, userId: int, s: Stages, start: int, finish: int): JobStatus {
    AnalyzedJob(JobStatus(id, userId, GenerateRecsJob, Running, 0, Some(StartingMessage), Some(start), None, start), s, finish)
  }

  /**
   * The inputs of one pipeline run: the user and their token, the configured
   * `max_similar_users`, the GitHub API and text-service oracles, the batch
   * id the run draws, and the clock readings of the profile and scoring writes.
   */
  datatype Run = Run(userId: int, accessToken: string, maxSimilar: nat, api: GitHubApi,
                     o: RecommendationEngine.Oracles, batchId: string, profileAt: int, scoredAt: int)

  /** What the profile stage did: its outcome and the users table it left. */
  predicate ProfileEffect(usersBefore: map<int, User>, usersAfter: map<int, User>, starred: seq<StarredRepo>,
                          run: Run, profile: Result<Option<Json>>)
  {
    && profile == ProfileAnalyzer.ProfileOutcome(usersBefore, starred, run.userId, run.o.llm, run.o.loads)
    && usersAfter == ProfileAnalyzer.UsersAfter(usersBefore, starred, run.userId, run.o.llm, run.o.loads, run.profileAt)
  }

  /** What the similar-users stage did: its outcome and the similar-users table it left. */
  predicate SimilarEffect(similarBefore: seq<SimilarUser>, similarAfter: seq<SimilarUser>, starred: seq<StarredRepo>,
                          cache: Option<map<string, seq<string>>>, run: Run,
                          similar: Result<seq<SimilarUsers.SimilarEntry>>)
  {
    && similar == SimilarUsers.DiscoverOutcome(starred, run.userId, cache, run.api, run.accessToken, run.maxSimilar)
    && similarAfter == if similar.Ok? && SimilarUsers.TopStarred(starred, run.userId) != []
      then Replaced(similarBefore, SimilarKey, run.userId, SimilarUsers.SimilarRows(run.userId, similar.value))
      else similarBefore
  }

  /**
   * What the candidate stage did: gathering excludes the user's own starred
   * repositories, returns the best 100 and stores the best 200 in place of
   * the user's previous candidates.
   */
  predicate CandidateEffect(candidatesBefore: seq<CandidateRepo>, candidatesAfter: seq<CandidateRepo>,
                            similarRows: seq<SimilarUser>, starred: seq<StarredRepo>,
                            cache: Option<map<string, seq<GhRepo>>>, run: Run,
                            candidates: Result<seq<SimilarUsers.Candidate>>)
  {
    var ranking := SimilarUsers.GatherRanking(similarRows, run.userId, cache, run.api, run.accessToken,
                                              StarredIds(starred, run.userId));
    && candidates == (if ranking.Ok? then Ok(Take(ranking.value, SimilarUsers.CandidatesReturned)) else Err(ranking.message))
    && candidatesAfter == if ranking.Ok? && SimilarUsers.SimilarRead(similarRows, run.userId) != []
      then Replaced(candidatesBefore, CandidateKey, run.userId,
                    SimilarUsers.CandidateRows(run.userId, Take(ranking.value, SimilarUsers.CandidatesStored)))
      else candidatesBefore
  }

  /** What the scoring stage did: its outcome and the recommendations table it left. */
  predicate ScoringEffect(recsBefore: seq<Recommendation>, recsAfter: seq<Recommendation>, users: map<int, User>,
                          candidateRows: seq<CandidateRepo>, run: Run,
                          scored: Result<seq<RecommendationEngine.Scored>>)
  {
    var plan := RecommendationEngine.Plan(users, candidateRows, run.userId, RecommendationEngine.DefaultTopN, run.o);
    && scored == RecommendationEngine.Outcome(recsBefore, plan, run.userId, run.batchId, run.scoredAt)
    && recsAfter == RecommendationEngine.RecommendationsAfter(recsBefore, plan, run.userId, run.batchId, run.scoredAt)
  }

  /** The candidate stage and, unless it raised, scoring; a raise leaves the recommendations alone. */
  predicate FromCandidates(candidatesBefore: seq<CandidateRepo>, candidatesAfter: seq<CandidateRepo>,
                           recsBefore: seq<Recommendation>, recsAfter: seq<Recommendation>,
                           similarRows: seq<SimilarUser>, starred: seq<StarredRepo>, users: map<int, User>,
                           cache: Option<map<string, seq<GhRepo>>>, run: Run,
                           candidates: Result<seq<SimilarUsers.Candidate>>, scored: Result<seq<RecommendationEngine.Scored>>)
  {
    && CandidateEffect(candidatesBefore, candidatesAfter, similarRows, starred, cache, run, candidates)
    && (candidates.Err? || ScoringEffect(recsBefore, recsAfter, users, candidatesAfter, run, scored))
    && (candidates.Ok? || recsAfter == recsBefore)
  }

  /** The similar-users stage and, unless it raised, the later ones; a raise leaves their tables alone. */
  predicate FromSimilar(similarBefore: seq<SimilarUser>, similarAfter: seq<SimilarUser>,
                        candidatesBefore: seq<CandidateRepo>, candidatesAfter: seq<CandidateRepo>,
                        recsBefore: seq<Recommendation>, recsAfter: seq<Recommendation>,
                        starred: seq<StarredRepo>, users: map<int, User>,
                        stargazers: Option<map<string, seq<string>>>, userStarred: Option<map<string, seq<GhRepo>>>,
                        run: Run, s: Stages)
  {
    && SimilarEffect(similarBefore, similarAfter, starred, stargazers, run, s.similar)
    && (s.similar.Err? || FromCandidates(candidatesBefore, candidatesAfter, recsBefore, recsAfter, similarAfter, starred,
                                         users, userStarred, run, s.candidates, s.scored))
    && (s.similar.Ok? || (candidatesAfter == candidatesBefore && recsAfter == recsBefore))
  }

  /** Every stage of a run, the first to raise ending it. */
  predicate FromProfile(usersBefore: map<int, User>, usersAfter: map<int, User>,
                        similarBefore: seq<SimilarUser>, similarAfter: seq<SimilarUser>,
                        candidatesBefore: seq<CandidateRepo>, candidatesAfter: seq<CandidateRepo>,
                        recsBefore: seq<Recommendation>, recsAfter: seq<Recommendation>,
                        starred: seq<StarredRepo>,
                        stargazers: Option<map<string, seq<string>>>, userStarred: Option<map<string, seq<GhRepo>>>,
                        run: Run, s: Stages)
  {
    && ProfileEffect(usersBefore, usersAfter, starred, run, s.profile)
    && (s.profile.Err? || FromSimilar(similarBefore, similarAfter, candidatesBefore, candidatesAfter, recsBefore, recsAfter,
                                      starred, usersAfter, stargazers, userStarred, run, s))
    && (s.profile.Ok? || (similarAfter == similarBefore && candidatesAfter == candidatesBefore && recsAfter == recsBefore))
  }

  /** Two writes to the same row leave the second. */
  lemma OverwriteRow(jobs: seq<JobStatus>, i: nat, first: JobStatus, second: JobStatus)
    requires i < |jobs|
    ensures jobs[i := first][i := second] == jobs[i := second]
  {
  }

  /** Step 4: progress 80, scoring, then the completion or failure write. */
  method ScoringStage(db: Database, id: int, run: Run, finish: int) returns (scored: Result<seq<RecommendationEngine.Scored>>)
    requires db.Valid() && 1 <= id <= |db.jobs|
    modifies db`jobs, db`recommendations
    ensures db.Valid()
    ensures db.jobs == old(db.jobs)[id - 1 := ScoredJob(old(db.jobs)[id - 1], scored, finish)]
    ensures ScoringEffect(old(db.recommendations), db.recommendations, db.users, db.candidates, run, scored)
  {
    db.SetProgress(id, 80, ScoringMessage);
    scored := RecommendationEngine.GenerateRecommendations(db, run.userId, RecommendationEngine.DefaultTopN, run.o,
                                                           run.batchId, run.scoredAt);
    if scored.Err? {
      db.Fail(id, scored.message, finish);
    } else {
      db.Complete(id, GeneratedMessage(|scored.value|), finish);
    }
  }

  /** Step 3: progress 60, gathering; scoring follows unless gathering raised. */
  method CandidateStage(db: Database, redis: RedisCache?, id: int, run: Run, finish: int)
    returns (ghost candidates: Result<seq<SimilarUsers.Candidate>>, ghost scored: Result<seq<RecommendationEngine.Scored>>)
    requires db.Valid() && 1 <= id <= |db.jobs|
    modifies db`jobs, db`candidates, db`recommendations, Present(redis)`userStarred
    ensures db.Valid()
    ensures db.jobs == old(db.jobs)[id - 1 := GatheredJob(old(db.jobs)[id - 1], candidates, scored, finish)]
    ensures FromCandidates(old(db.candidates), db.candidates, old(db.recommendations), db.recommendations, db.similar,
                           db.starred, db.users, old(SimilarUsers.UserStarredCacheOf(redis)), run, candidates, scored)
  {
    ghost var jobs, job := db.jobs, db.jobs[id - 1];
    var gathered := CandidateStart(db, redis, id, run);
    candidates := gathered;
    scored := AfterGathering(db, id, run, gathered, finish);
    OverwriteRow(jobs, id - 1, Staged(job, 60, CandidateMessage), GatheredJob(job, candidates, scored, finish));
  }

  /** The progress write at 60, then gathering over the user's starred repository ids. */
  method CandidateStart(db: Database, redis: RedisCache?, id: int, run: Run)
    returns (candidates: Result<seq<SimilarUsers.Candidate>>)
    requires db.Valid() && 1 <= id <= |db.jobs|
    modifies db`jobs, db`candidates, Present(redis)`userStarred
    ensures db.Valid()
    ensures db.jobs == old(db.jobs)[id - 1 := Staged(old(db.jobs)[id - 1], 60, CandidateMessage)]
    ensures CandidateEffect(old(db.candidates), db.candidates, db.similar, db.starred,
                            old(SimilarUsers.UserStarredCacheOf(redis)), run, candidates)
    ensures db.recommendations == old(db.recommendations)
  {
    db.SetProgress(id, 60, CandidateMessage);
    var starredIds := StarredIds(db.starred, run.userId);
    candidates := SimilarUsers.GatherCandidateRepos(db, redis, run.api, run.userId, run.accessToken, starredIds);
  }

  /** The failure write when gathering raised, or else the scoring stage. */
  method AfterGathering(db: Database, id: int, run: Run, candidates: Result<seq<SimilarUsers.Candidate>>, finish: int)
    returns (scored: Result<seq<RecommendationEngine.Scored>>)
    requires db.Valid() && 1 <= id <= |db.jobs|
    modifies db`jobs, db`recommendations
    ensures db.Valid()
    ensures db.jobs == old(db.jobs)[id - 1 := if candidates.Err? then FailedJob(old(db.jobs)[id - 1], candidates.message, finish)
                                               else ScoredJob(old(db.jobs)[id - 1], scored, finish)]
    ensures candidates.Err? || ScoringEffect(old(db.recommendations), db.recommendations, db.users, db.candidates, run, scored)
    ensures candidates.Ok? || db.recommendations == old(db.recommendations)
    ensures db.candidates == old(db.candidates) && db.similar == old(db.similar) && db.starred == old(db.starred)
  {
    scored := Ok([]);
    if candidates.Err? {
      db.Fail(id, candidates.message, finish);
      return;
    }
    scored := ScoringStage(db, id, run, finish);
  }

  /** Step 2: progress 30, discovery, then the candidate stage unless discovery raised. */
  method SimilarStage(db: Database, redis: RedisCache?, id: int, run: Run, finish: int) returns (ghost s: Stages)
    requires db.Valid() && 1 <= id <= |db.jobs|
    modifies db`jobs, db`similar, db`candidates, db`recommendations
    modifies Present(redis)`stargazers, Present(redis)`userStarred
    ensures db.Valid()
    ensures db.jobs == old(db.jobs)[id - 1 := DiscoveredJob(old(db.jobs)[id - 1], s.similar, s.candidates, s.scored, finish)]
    ensures FromSimilar(old(db.similar), db.similar, old(db.candidates), db.candidates, old(db.recommendations),
                        db.recommendations, db.starred, db.users, old(SimilarUsers.StargazerCacheOf(redis)),
                        old(SimilarUsers.UserStarredCacheOf(redis)), run, s)
    ensures db.users == old(db.users) && db.starred == old(db.starred)
  {
    ghost var jobs, job := db.jobs, db.jobs[id - 1];
    var similar := SimilarStart(db, redis, id, run);
    s := AfterDiscovery(db, redis, id, run, similar, finish);
    OverwriteRow(jobs, id - 1, Staged(job, 30, SimilarMessage), DiscoveredJob(job, s.similar, s.candidates, s.scored, finish));
  }

  /** The progress write at 30, then discovery. */
  method SimilarStart(db: Database, redis: RedisCache?, id: int, run: Run)
    returns (similar: Result<seq<SimilarUsers.SimilarEntry>>)
    requires db.Valid() && 1 <= id <= |db.jobs|
    modifies db`jobs, db`similar, Present(redis)`stargazers
    ensures db.Valid()
    ensures db.jobs == old(db.jobs)[id - 1 := Staged(old(db.jobs)[id - 1], 30, SimilarMessage)]
    ensures SimilarEffect(old(db.similar), db.similar, db.starred, old(SimilarUsers.StargazerCacheOf(redis)), run, similar)
    ensures db.candidates == old(db.candidates) && db.recommendations == old(db.recommendations)
    ensures db.users == old(db.users) && db.starred == old(db.starred)
    ensures SimilarUsers.UserStarredCacheOf(redis) == old(SimilarUsers.UserStarredCacheOf(redis))
  {
    db.SetProgress(id, 30, SimilarMessage);
    similar := SimilarUsers.DiscoverSimilarUsers(db, redis, run.api, run.userId, run.accessToken, run.maxSimilar);
  }

  /** The failure write when discovery raised, or else the candidate stage and scoring. */
  method AfterDiscovery(db: Database, redis: RedisCache?, id: int, run: Run,
                        similar: Result<seq<SimilarUsers.SimilarEntry>>, finish: int) returns (ghost s: Stages)
    requires db.Valid() && 1 <= id <= |db.jobs|
    modifies db`jobs, db`candidates, db`recommendations, Present(redis)`userStarred
    ensures db.Valid()
    ensures s.similar == similar
    ensures db.jobs == old(db.jobs)[id - 1 := if similar.Err? then FailedJob(old(db.jobs)[id - 1], similar.message, finish)
                                               else GatheredJob(old(db.jobs)[id - 1], s.candidates, s.scored, finish)]
    ensures similar.Err? || FromCandidates(old(db.candidates), db.candidates, old(db.recommendations), db.recommendations,
                                           db.similar, db.starred, db.users, old(SimilarUsers.UserStarredCacheOf(redis)),
                                           run, s.candidates, s.scored)
    ensures similar.Ok? || (db.candidates == old(db.candidates) && db.recommendations == old(db.recommendations))
    ensures db.similar == old(db.similar) && db.starred == old(db.starred) && db.users == old(db.users)
  {
    s := Stages(Ok(None), similar, Ok([]), Ok([]));
    if similar.Err? {
      db.Fail(id, similar.message, finish);
      return;
    }
    var candidates, scored := CandidateStage(db, redis, id, run, finish);
    s := s.(candidates := candidates, scored := scored);
  }

  /** Step 1: progress 10, the taste profile, then the rest of the run. */
  method ProfileStage(db: Database, redis: RedisCache?, id: int, run: Run, finish: int) returns (ghost s: Stages)
    requires db.Valid() && 1 <= id <= |db.jobs|
    modifies db`jobs, db`users, db`similar, db`candidates, db`recommendations
    modifies Present(redis)`stargazers, Present(redis)`userStarred
    ensures db.Valid()
    ensures db.jobs == old(db.jobs)[id - 1 := AnalyzedJob(old(db.jobs)[id - 1], s, finish)]
    ensures FromProfile(old(db.users), db.users, old(db.similar), db.similar, old(db.candidates), db.candidates,
                        old(db.recommendations), db.recommendations, db.starred,
                        old(SimilarUsers.StargazerCacheOf(redis)), old(SimilarUsers.UserStarredCacheOf(redis)), run, s)
  {
    ghost var jobs, job := db.jobs, db.jobs[id - 1];
    ghost var gazers0, starredCache0 := SimilarUsers.StargazerCacheOf(redis), SimilarUsers.UserStarredCacheOf(redis);
    var profile := ProfileStart(db, id, run);
    assert SimilarUsers.StargazerCacheOf(redis) == gazers0 && SimilarUsers.UserStarredCacheOf(redis) == starredCache0;
    s := AfterProfile(db, redis, id, run, profile, finish);
    OverwriteRow(jobs, id - 1, Staged(job, 10, ProfileMessage), AnalyzedJob(job, s, finish));
  }

  /** The progress write at 10, then the taste profile. */
  method ProfileStart(db: Database, id: int, run: Run) returns (profile: Result<Option<Json>>)
    requires db.Valid() && 1 <= id <= |db.jobs|
    modifies db`jobs, db`users
    ensures db.Valid()
    ensures db.jobs == old(db.jobs)[id - 1 := Staged(old(db.jobs)[id - 1], 10, ProfileMessage)]
    ensures ProfileEffect(old(db.users), db.users, db.starred, run, profile)
    ensures db.similar == old(db.similar) && db.candidates == old(db.candidates)
    ensures db.recommendations == old(db.recommendations)
  {
    db.SetProgress(id, 10, ProfileMessage);
    profile := BuildProfile(db, run);
  }

  /** The failure write when profiling raised, or else the similar-users stage and the rest. */
  method AfterProfile(db: Database, redis: RedisCache?, id: int, run: Run, profile: Result<Option<Json>>, finish: int)
    returns (ghost s: Stages)
    requires db.Valid() && 1 <= id <= |db.jobs|
    modifies db`jobs, db`similar, db`candidates, db`recommendations
    modifies Present(redis)`stargazers, Present(redis)`userStarred
    ensures db.Valid()
    ensures s.profile == profile
    ensures db.jobs == old(db.jobs)[id - 1 := if profile.Err? then FailedJob(old(db.jobs)[id - 1], profile.message, finish)
                                               else DiscoveredJob(old(db.jobs)[id - 1], s.similar, s.candidates, s.scored, finish)]
    ensures profile.Err? || FromSimilar(old(db.similar), db.similar, old(db.candidates), db.candidates,
                                        old(db.recommendations), db.recommendations, db.starred, db.users,
                                        old(SimilarUsers.StargazerCacheOf(redis)), old(SimilarUsers.UserStarredCacheOf(redis)),
                                        run, s)
    ensures profile.Ok? || (db.similar == old(db.similar) && db.candidates == old(db.candidates)
                            && db.recommendations == old(db.recommendations))
    ensures db.users == old(db.users) && db.starred == old(db.starred)
  {
    s := Stages(profile, Ok([]), Ok([]), Ok([]));
    if profile.Err? {
      db.Fail(id, profile.message, finish);
      return;
    }
    var rest := SimilarStage(db, redis, id, run, finish);
    s := rest.(profile := profile);
  }

  /** `build_taste_profile`, which writes the users table only. */
  method BuildProfile(db: Database, run: Run) returns (profile: Result<Option<Json>>)
    requires db.Valid()
    modifies db`users
    ensures db.Valid()
    ensures ProfileEffect(old(db.users), db.users, db.starred, run, profile)
  {
    profile := ProfileAnalyzer.BuildTasteProfile(db, run.userId, run.o.llm, run.o.loads, run.profileAt);
  }

  /**
   * `full_recommendation_pipeline(user_id, access_token)`: the job row is
   * added running at 0, then the profile is built, similar users
   * discovered, candidates gathered and scored, the row's progress moving
   * to 10, 30, 60 and 80 before each stage.  The first stage to raise ends
   * the run with the row failed; what the stages before it stored stays.
   * The caches are read and filled by the stages that use them.
   */
  method FullRecommendationPipeline(db: Database, redis: RedisCache?, run: Run, start: int, finish: int)
    returns (ghost s: Stages)
    requires db.Valid()
    modifies db`jobs, db`users, db`similar, db`candidates, db`recommendations
    modifies Present(redis)`stargazers, Present(redis)`userStarred
    ensures db.Valid()
    ensures db.jobs == old(db.jobs) + [PipelineJob(|old(db.jobs)| + 1, run.userId, s, start, finish)]
    ensures FromProfile(old(db.users), db.users, old(db.similar), db.similar, old(db.candidates), db.candidates,
                        old(db.recommendations), db.recommendations, db.starred,
                        old(SimilarUsers.StargazerCacheOf(redis)), old(SimilarUsers.UserStarredCacheOf(redis)), run, s)
  {
    var id := db.AddJob(run.userId, GenerateRecsJob, Some(StartingMessage), start);
    s := ProfileStage(db, redis, id, run, finish);
  }

  /**
   * A pipeline run never leaves its job pending or running; it completes at
   * 100 exactly when every stage succeeded, and otherwise fails at the
   * milestone of the stage that raised, with that stage's error.
   */
  lemma PipelineJobSettles(id: int, userId: int, s: Stages, start: int, finish: int)
    ensures var j := PipelineJob(id, userId, s, start, finish);
      && (j.status == Completed || j.status == Failed)
      && (j.status == Completed <==> s.profile.Ok? && s.similar.Ok? && s.candidates.Ok? && s.scored.Ok?)
      && (j.status == Completed ==> j.progress == 100 && j.message == Some(GeneratedMessage(|s.scored.value|)))
      && (s.profile.Err? ==> j.progress == 10 && j.message == Some(s.profile.message))
      && (s.profile.Ok? && s.similar.Err? ==> j.progress == 30 && j.message == Some(s.similar.message))
      && (s.profile.Ok? && s.similar.Ok? && s.candidates.Err? ==> j.progress == 60 && j.message == Some(s.candidates.message))
      && (s.profile.Ok? && s.similar.Ok? && s.candidates.Ok? && s.scored.Err? ==>
            j.progress == 80 && j.message == Some(s.scored.message))
      && j.id == id && j.userId == userId && j.jobType == GenerateRecsJob
      && j.startedAt == Some(start) && j.completedAt == Some(finish) && j.createdAt == start
  {
  }

  /**
   * As written, a run whose discovery ranks two or more similar users fails
   * at 30 with the constraint's `IntegrityError`, before any candidate is
   * gathered or scored.
   */
  lemma PipelineFailsAsWritten(id: int, s: Stages, start: int, finish: int, similarBefore: seq<SimilarUser>,
                               starred: seq<StarredRepo>, cache: Option<map<string, seq<string>>>, run: Run)
    requires s.profile.Ok?
    requires s.similar == SimilarUsers.DiscoverAsWritten(similarBefore, starred, run.userId, cache, run.api,
                                                         run.accessToken, run.maxSimilar)
    requires SimilarUsers.DiscoverOutcome(starred, run.userId, cache, run.api, run.accessToken, run.maxSimilar).Ok?
    requires |SimilarUsers.DiscoverOutcome(starred, run.userId, cache, run.api, run.accessToken, run.maxSimilar).value| >= 2
    ensures var j := PipelineJob(id, run.userId, s, start, finish);
      j.status == Failed && j.progress == 30 && j.message == Some(SimilarUsers.DeclaredKeyClash)
  {
    SimilarUsers.DiscoveryFailsAsWritten(similarBefore, starred, run.userId, cache, run.api, run.accessToken, run.maxSimilar);
    PipelineJobSettles(id, run.userId, s, start, finish);
  }

  // ---------------------------------------------------------------------
  // Guards
  // ---------------------------------------------------------------------

  /** The count of the user's starred rows is zero. */
  predicate HasNoStars(starred: seq<StarredRepo>, userId: int) {
    OfUser(starred, StarredKey, userId) == []
  }

  /** `POST /generate`: signed in, with starred repositories, and no pipeline of theirs running. */
  function GenerateReply(users: map<int, User>, starred: seq<StarredRepo>, jobs: seq<JobStatus>, session: Option<int>)
    : Reply<string>
  {
    match SessionUser(users, session)
    case Raise(s, d) => Raise(s, d)
    case Reply(user) =>
      if HasNoStars(starred, user.id) then Raise(400, NoStars)
      else match StartGuard(jobs, user.id, GenerateRecsJob, PipelineBusy)
        case Raise(s, d) => Raise(s, d)
        case Reply(_) => Reply("Recommendation generation started")
  }

  /**
   * For a signed-in user the pipeline starts exactly when they have starred
   * repositories and no pipeline of theirs is running; either lack is a 400
   * with its own message.
   */
  lemma GenerateGuarded(users: map<int, User>, starred: seq<StarredRepo>, jobs: seq<JobStatus>, session: Option<int>)
    requires SessionUser(users, session).Reply?
    ensures var u := SessionUser(users, session).value.id;
      && (GenerateReply(users, starred, jobs, session).Reply?
          <==> (!HasNoStars(starred, u) && RunningJobs(jobs, u, GenerateRecsJob) == []))
      && (HasNoStars(starred, u) ==> GenerateReply(users, starred, jobs, session) == Raise(400, NoStars))
      && (!HasNoStars(starred, u) && |RunningJobs(jobs, u, GenerateRecsJob)| == 1 ==>
            GenerateReply(users, starred, jobs, session) == Raise(400, PipelineBusy))
  {
  }

  /** `POST /profile/analyze`: signed in and with starred repositories. */
  function AnalyzeReply(users: map<int, User>, starred: seq<StarredRepo>, session: Option<int>): (r: Reply<string>)
    ensures SessionUser(users, session).Reply? ==>
      (r.Reply? <==> !HasNoStars(starred, SessionUser(users, session).value.id))
  {
    match SessionUser(users, session)
    case Raise(s, d) => Raise(s, d)
    case Reply(user) => if HasNoStars(starred, user.id) then Raise(400, NoStars) else Reply("Profile analysis started")
  }

  /** `GET /profile`: the stored profile, or nothing before one was built. */
  function ProfileReply(users: map<int, User>, session: Option<int>): (r: Reply<Option<Json>>)
    ensures SessionUser(users, session).Reply? ==> r == Reply(SessionUser(users, session).value.tasteProfile)
  {
    match SessionUser(users, session)
    case Raise(s, d) => Raise(s, d)
    case Reply(user) => Reply(user.tasteProfile)
  }

  // ---------------------------------------------------------------------
  // Listing
  // ---------------------------------------------------------------------

  function RecCreatedKey(r: Recommendation): real {
    r.createdAt as real
  }

  function RelevanceKey(r: Recommendation): real {
    r.relevanceScore
  }

  /** The batch of the user's most recently created recommendation (the first such in table order), if any. */
  function LatestBatch(recs: seq<Recommendation>, userId: int): Option<string> {
    var sorted := SortDesc(OfUser(recs, RecommendationKey, userId), RecCreatedKey);
    if sorted == [] then None else Some(sorted[0].batchId)
  }

  /**
   * The batch a listing shows: the one asked for when the request names a
   * non-empty id; otherwise the latest one, unless its id is empty, when
   * every batch of the user is shown (`None`).
   */
  function ListedBatch(recs: seq<Recommendation>, userId: int, batchId: Option<string>): Option<string> {
    if batchId.Some? && batchId.value != "" then batchId
    else match LatestBatch(recs, userId)
      case Some(b) => if b != "" then Some(b) else None
      case None => None
  }

  /** `GET /recommendations`: the rows read, before feedback is attached. */
  function ListedRows(recs: seq<Recommendation>, userId: int, limit: int, offset: int, batchId: Option<string>)
    : seq<Recommendation>
  {
    var mine := OfUser(recs, RecommendationKey, userId);
    LimitOffset(SortDesc(InBatch(mine, ListedBatch(recs, userId, batchId)), RelevanceKey), limit, offset)
  }

  /** The rows of the batch shown, or all of them when no batch is. */
  function InBatch(rows: seq<Recommendation>, batch: Option<string>): seq<Recommendation> {
    if batch.Some? then Filter(rows, (r: Recommendation) => r.batchId == batch.value) else rows
  }

  /** A row of the user's batch is one of the user's recommendations, from that batch. */
  lemma InBatchRow(recs: seq<Recommendation>, userId: int, batch: Option<string>, x: Recommendation)
    requires x in InBatch(OfUser(recs, RecommendationKey, userId), batch)
    ensures x in recs && x.userId == userId
    ensures batch.Some? ==> x.batchId == batch.value
  {
    var mine := OfUser(recs, RecommendationKey, userId);
    assert x in mine;
    var i :| 0 <= i < |mine| && mine[i] == x;
    assert RecommendationKey(mine[i]).0 == userId;
  }

  /** `{f.recommendation_id: f.feedback_type ...}.get(rec_id)`: the last matching row wins. */
  function FeedbackFor(feedback: seq<Feedback>, userId: int, recId: int): (r: Option<FeedbackType>)
    ensures r.Some? ==> Feedback(userId, recId, r.value) in feedback
    ensures r.None? <==> forall k :: 0 <= k < |feedback| ==> FeedbackKey(feedback[k]) != (userId, recId)
  {
    if feedback == [] then None
    else
      var last := feedback[|feedback| - 1];
      if FeedbackKey(last) == (userId, recId) then Some(last.feedbackType)
      else FeedbackFor(feedback[..|feedback| - 1], userId, recId)
  }

  /** One entry of the listing. */
  datatype ListedItem = ListedItem(rec: Recommendation, topics: seq<string>, feedback: Option<FeedbackType>)

  function ListRecommendations(recs: seq<Recommendation>, feedback: seq<Feedback>, userId: int,
                               limit: int, offset: int, batchId: Option<string>): (items: seq<ListedItem>)
    ensures var rows := ListedRows(recs, userId, limit, offset, batchId);
      |items| == |rows| && forall k :: 0 <= k < |rows| ==>
        items[k] == ListedItem(rows[k], DecodeTopics(rows[k].topics), FeedbackFor(feedback, userId, rows[k].id))
  {
    var rows := ListedRows(recs, userId, limit, offset, batchId);
    seq(|rows|, k requires 0 <= k < |rows| =>
      ListedItem(rows[k], DecodeTopics(rows[k].topics), FeedbackFor(feedback, userId, rows[k].id)))
  }

  /**
   * A listing holds at most `limit` of the user's recommendations, best
   * score first, all from the batch shown; without a batch id that is the
   * batch of the most recently created recommendation.
   */
  lemma ListedFacts(recs: seq<Recommendation>, userId: int, limit: int, offset: int, batchId: Option<string>)
    ensures var rows := ListedRows(recs, userId, limit, offset, batchId);
      var batch := ListedBatch(recs, userId, batchId);
      && (limit >= 0 ==> |rows| <= limit)
      && (forall k :: 0 <= k < |rows| ==> rows[k] in recs && rows[k].userId == userId)
      && (batch.Some? ==> forall k :: 0 <= k < |rows| ==> rows[k].batchId == batch.value)
      && (forall i, j :: 0 <= i < j < |rows| ==> rows[i].relevanceScore >= rows[j].relevanceScore)
  {
    var batch := ListedBatch(recs, userId, batchId);
    var selected := InBatch(OfUser(recs, RecommendationKey, userId), batch);
    var rows := LimitOffset(SortDesc(selected, RelevanceKey), limit, offset);
    PageOfRanking(selected, limit, offset, rows);
    forall k | 0 <= k < |rows|
      ensures rows[k] in recs && rows[k].userId == userId
      ensures batch.Some? ==> rows[k].batchId == batch.value
    {
      InBatchRow(recs, userId, batch, rows[k]);
    }
  }

  /** A page of recommendations ranked by relevance holds only ranked rows, best first. */
  lemma PageOfRanking(selected: seq<Recommendation>, limit: int, offset: int, rows: seq<Recommendation>)
    requires rows == LimitOffset(SortDesc(selected, RelevanceKey), limit, offset)
    ensures forall k :: 0 <= k < |rows| ==> rows[k] in selected
    ensures forall i, j :: 0 <= i < j < |rows| ==> rows[i].relevanceScore >= rows[j].relevanceScore
  {
    var sorted := SortDesc(selected, RelevanceKey);
    SortDescFacts(selected, RelevanceKey);
    forall k | 0 <= k < |rows| ensures rows[k] in selected {
      assert rows[k] in sorted;
    }
    forall i, j | 0 <= i < j < |rows| ensures rows[i].relevanceScore >= rows[j].relevanceScore {
      assert RelevanceKey(sorted[SqlOffset(offset) + i]) >= RelevanceKey(sorted[SqlOffset(offset) + j]);
    }
  }

  /** Without a batch id, the batch shown is that of a recommendation created no earlier than any other of the user's. */
  lemma LatestBatchIsLatest(recs: seq<Recommendation>, userId: int)
    ensures LatestBatch(recs, userId).None? <==> OfUser(recs, RecommendationKey, userId) == []
    ensures LatestBatch(recs, userId).Some? ==>
      exists r :: r in recs && r.userId == userId && r.batchId == LatestBatch(recs, userId).value
        && forall x :: x in recs && x.userId == userId ==> x.createdAt <= r.createdAt
  {
    var mine := OfUser(recs, RecommendationKey, userId);
    var sorted := SortDesc(mine, RecCreatedKey);
    SortDescFacts(mine, RecCreatedKey);
    if sorted != [] {
      var r := sorted[0];
      assert r in mine;
      forall x | x in recs && x.userId == userId ensures x.createdAt <= r.createdAt {
        assert x in sorted;
        var k :| 0 <= k < |sorted| && sorted[k] == x;
        if k > 0 {
          assert RecCreatedKey(sorted[0]) >= RecCreatedKey(sorted[k]);
        }
      }
    } else {
      assert |mine| == |sorted|;
    }
  }

  // ---------------------------------------------------------------------
  // Feedback
  // ---------------------------------------------------------------------

  /**
   * The checks of `submit_feedback`, in order: the session, the feedback
   * type (400) and the recommendation, which must be the user's (404).
   */
  function FeedbackCheck(users: map<int, User>, recs: seq<Recommendation>, session: Option<int>,
                         recommendationId: int, feedbackType: string): (r: Reply<(int, FeedbackType)>)
    ensures SessionUser(users, session).Reply? && ParseFeedbackType(feedbackType).None? ==>
      r == Raise(400, "Invalid feedback type")
    ensures SessionUser(users, session).Reply? && ParseFeedbackType(feedbackType).Some? ==>
      (r == Raise(404, "Recommendation not found") <==>
        forall k :: 0 <= k < |recs| ==> recs[k].id != recommendationId || recs[k].userId != SessionUser(users, session).value.id)
    ensures r.Reply? ==> (SessionUser(users, session).Reply? && ParseFeedbackType(feedbackType).Some?
      && r.value == (SessionUser(users, session).value.id, ParseFeedbackType(feedbackType).value))
  {
    match SessionUser(users, session)
    case Raise(s, d) => Raise(s, d)
    case Reply(user) =>
      match ParseFeedbackType(feedbackType)
      case None => Raise(400, "Invalid feedback type")
      case Some(t) =>
        if exists k :: 0 <= k < |recs| && recs[k].id == recommendationId && recs[k].userId == user.id
        then Reply((user.id, t))
        else Raise(404, "Recommendation not found")
  }

  /** The position of the feedback row for `(user, recommendation)`, if there is one. */
  function FeedbackIndex(feedback: seq<Feedback>, userId: int, recId: int): (r: Option<nat>)
    ensures r.Some? ==> r.value < |feedback| && FeedbackKey(feedback[r.value]) == (userId, recId)
    ensures r.Some? ==> forall k :: 0 <= k < r.value ==> FeedbackKey(feedback[k]) != (userId, recId)
    ensures r.None? ==> forall k :: 0 <= k < |feedback| ==> FeedbackKey(feedback[k]) != (userId, recId)
  {
    if feedback == [] then None
    else if FeedbackKey(feedback[0]) == (userId, recId) then Some(0)
    else match FeedbackIndex(feedback[1..], userId, recId)
      case Some(i) => Some(i + 1)
      case None => None
  }

  /** The feedback table after an upsert: the existing row takes the new type, or a row is added. */
  function Upserted(feedback: seq<Feedback>, userId: int, recId: int, t: FeedbackType): seq<Feedback> {
    match FeedbackIndex(feedback, userId, recId)
    case Some(i) => feedback[i := feedback[i].(feedbackType := t)]
    case None => feedback + [Feedback(userId, recId, t)]
  }

  /** `POST /recommendations/{id}/feedback?feedback_type=`. */
  method SubmitFeedback(db: Database, session: Option<int>, recommendationId: int, feedbackType: string)
    returns (r: Reply<string>)
    requires db.Valid()
    modifies db`feedback
    ensures db.Valid()
    ensures var check := FeedbackCheck(db.users, db.recommendations, session, recommendationId, feedbackType);
      && (r.Reply? <==> check.Reply?)
      && (check.Raise? ==> r == Raise(check.status, check.detail) && db.feedback == old(db.feedback))
      && (check.Reply? ==> (r.value == feedbackType
            && db.feedback == Upserted(old(db.feedback), check.value.0, recommendationId, check.value.1)))
  {
    var check := FeedbackCheck(db.users, db.recommendations, session, recommendationId, feedbackType);
    if check.Raise? {
      return Raise(check.status, check.detail);
    }
    var userId, t := check.value.0, check.value.1;
    var i := 0;
    while i < |db.feedback| && FeedbackKey(db.feedback[i]) != (userId, recommendationId)
      invariant 0 <= i <= |db.feedback|
      invariant forall k :: 0 <= k < i ==> FeedbackKey(db.feedback[k]) != (userId, recommendationId)
      decreases |db.feedback| - i
    {
      i := i + 1;
    }
    UpsertKeepsUnique(db.feedback, userId, recommendationId, t);
    if i < |db.feedback| {
      assert FeedbackIndex(db.feedback, userId, recommendationId) == Some(i);
      db.feedback := db.feedback[i := db.feedback[i].(feedbackType := t)];
    } else {
      db.feedback := db.feedback + [Feedback(userId, recommendationId, t)];
    }
    r := Reply(feedbackType);
  }

  /**
   * An upsert keeps the feedback table unique, leaves exactly one row for
   * the pair, holding the new type, and changes no other pair's row.
   */
  lemma UpsertKeepsUnique(feedback: seq<Feedback>, userId: int, recId: int, t: FeedbackType)
    requires UniqueBy(feedback, FeedbackKey)
    ensures var after := Upserted(feedback, userId, recId, t);
      && UniqueBy(after, FeedbackKey)
      && FeedbackFor(after, userId, recId) == Some(t)
      && (forall u, r :: (u, r) != (userId, recId) ==> FeedbackFor(after, u, r) == FeedbackFor(feedback, u, r))
  {
    var after := Upserted(feedback, userId, recId, t);
    match FeedbackIndex(feedback, userId, recId)
    case Some(i) =>
      forall u, r | (u, r) != (userId, recId) ensures FeedbackFor(after, u, r) == FeedbackFor(feedback, u, r) {
        FeedbackForUpdate(feedback, i, t, u, r);
      }
      FeedbackForUnique(after, userId, recId, i);
    case None =>
      assert after[..|after| - 1] == feedback;
  }

  /** Changing the type of one row changes nothing for another pair. */
  lemma {:induction false} FeedbackForUpdate(feedback: seq<Feedback>, i: nat, t: FeedbackType, u: int, r: int)
    requires i < |feedback| && FeedbackKey(feedback[i]) != (u, r)
    ensures FeedbackFor(feedback[i := feedback[i].(feedbackType := t)], u, r) == FeedbackFor(feedback, u, r)
    decreases |feedback|
  {
    var after := feedback[i := feedback[i].(feedbackType := t)];
    if i < |feedback| - 1 {
      assert after[..|after| - 1] == feedback[..|feedback| - 1][i := feedback[i].(feedbackType := t)];
      FeedbackForUpdate(feedback[..|feedback| - 1], i, t, u, r);
    } else {
      assert after[..|after| - 1] == feedback[..|feedback| - 1];
    }
  }

  /** In a unique table, the only row for a pair is the one `FeedbackFor` reads. */
  lemma {:induction false} FeedbackForUnique(feedback: seq<Feedback>, u: int, r: int, i: nat)
    requires UniqueBy(feedback, FeedbackKey)
    requires i < |feedback| && FeedbackKey(feedback[i]) == (u, r)
    ensures FeedbackFor(feedback, u, r) == Some(feedback[i].feedbackType)
    decreases |feedback|
  {
    if i < |feedback| - 1 {
      var init := feedback[..|feedback| - 1];
      assert FeedbackKey(feedback[|feedback| - 1]) != (u, r);
      FeedbackForUnique(init, u, r, i);
    }
  }
}
