/**
 * The scheduled work: the refresh of one user, which syncs their stars and
 * then runs the recommendation stages under a job row of its own, the
 * weekly loop over every user with starred repositories, and the cron job
 * built from the configured day and hour.
 */
module Scheduler {
  import opened Wrappers
  import opened Json
  import opened Records
  import opened Tables
  import opened Seqs
  import Text
  import opened GithubClient
  import opened GithubRouter
  import ProfileAnalyzer
  import SimilarUsers
  import RecommendationEngine
  import Prompts
  import opened RecommendationsRouter

  // ---------------------------------------------------------------------
  // One user's refresh
  // ---------------------------------------------------------------------

  const RefreshStarted: string := "Weekly refresh started"
  const ProfileUpdated: string := "Taste profile updated"
  const SimilarFound: string := "Found similar users"
  const CandidatesFound: string := "Candidate repos discovered"

  /** `f"Generated {len(recommendations)} new recommendations"`. */
  function RefreshedMessage(n: nat): string {
    "Generated " + Text.NatToString(n) + " new recommendations"
  }

  /** A refresh goes ahead: the user row exists, its token is non-empty, and it has a starred repository. */
  predicate Eligible(users: map<int, User>, starred: seq<StarredRepo>, userId: int) {
    userId in users && users[userId].accessToken != "" && OfUser(starred, StarredKey, userId) != []
  }

  /**
   * How the sync step ends: the fetched repositories, or the error it
   * raises, the fetch's own or the commit's when a repository repeats.
   */
  function SyncOutcome(api: GitHubApi, accessToken: string, userId: int): Result<seq<GhRepo>> {
    match FetchStarred(api, accessToken)
    case Err(e) => Err(e)
    case Ok(repos) => if UniqueBy(StarredRows(userId, repos), StarredKey) then Ok(repos) else Err(DuplicateStarred)
  }

  /** The job row from the scoring stage on: failed at 80, or completed at 100 with the count. */
  function ScoredRefresh(job: JobStatus, scored: Result<seq<RecommendationEngine.Scored>>, finish: int): JobStatus {
    if scored.Err? then FailedJob(job, scored.message, finish)
    else job.(status := Completed, progress := 100, message := Some(RefreshedMessage(|scored.value|)),
              completedAt := Some(finish))
  }

  /** The job row from the candidate stage on; it moves to 80 once candidates are gathered. */
  function GatheredRefresh(job: JobStatus, candidates: Result<seq<SimilarUsers.Candidate>>,
                           scored: Result<seq<RecommendationEngine.Scored>>, finish: int): JobStatus {
    if candidates.Err? then FailedJob(job, candidates.message, finish)
    else ScoredRefresh(Staged(job, 80, CandidatesFound), scored, finish)
  }

  /** The job row from the similar-users stage on; it moves to 60 once they are found. */
  function DiscoveredRefresh(job: JobStatus, similar: Result<seq<SimilarUsers.SimilarEntry>>,
                             candidates: Result<seq<SimilarUsers.Candidate>>,
                             scored: Result<seq<RecommendationEngine.Scored>>, finish: int): JobStatus {
    if similar.Err? then FailedJob(job, similar.message, finish)
    else GatheredRefresh(Staged(job, 60, SimilarFound), candidates, scored, finish)
  }

  /** The job row from the profile stage on; it moves to 40 once the profile is built. */
  function AnalyzedRefresh(job: JobStatus, s: Stages, finish: int): JobStatus {
    if s.profile.Err? then FailedJob(job, s.profile.message, finish)
    else DiscoveredRefresh(Staged(job, 40, ProfileUpdated), s.similar, s.candidates, s.scored, finish)
  }

  /** The job row from the sync on; it moves to 20 with the count once the stars are stored. */
  function SyncedRefresh(job: JobStatus, synced: Result<seq<GhRepo>>, s: Stages, finish: int): JobStatus {
    if synced.Err? then FailedJob(job, synced.message, finish)
    else AnalyzedRefresh(Staged(job, 20, SyncedMessage(|synced.value|)), s, finish)
  }

  /** The refresh's job row once it ends: created running at 0, then as the steps left it. */
  function RefreshJob(id: int, userId: int, synced: Result<seq<GhRepo>>, s: Stages, start: int, finish: int): JobStatus {
    SyncedRefresh(JobStatus(id, userId, ScheduledRefreshJob, Running, 0, Some(RefreshStarted), Some(start), None, start),
                  synced, s, finish)
  }

  /**
   * The job a refresh leaves is never pending or running: it completed at
   * 100 exactly when every step succeeded, or failed with the error of the
   * first step to raise, its progress the milestone reached before it
   * (0 for the sync, then 20, 40, 60 and 80).
   */
  lemma RefreshJobSettles(id: int, userId: int, synced: Result<seq<GhRepo>>, s: Stages, start: int, finish: int)
    ensures var j := RefreshJob(id, userId, synced, s, start, finish);
      && (j.status == Completed || j.status == Failed)
      && (j.status == Completed <==> synced.Ok? && s.profile.Ok? && s.similar.Ok? && s.candidates.Ok? && s.scored.Ok?)
      && (j.status == Completed ==> j.progress == 100 && j.message == Some(RefreshedMessage(|s.scored.value|)))
      && (synced.Err? ==> j.progress == 0 && j.message == Some(synced.message))
      && (synced.Ok? && s.profile.Err? ==> j.progress == 20 && j.message == Some(s.profile.message))
      && (synced.Ok? && s.profile.Ok? && s.similar.Err? ==> j.progress == 40 && j.message == Some(s.similar.message))
      && (synced.Ok? && s.profile.Ok? && s.similar.Ok? && s.candidates.Err? ==>
            j.progress == 60 && j.message == Some(s.candidates.message))
      && (synced.Ok? && s.profile.Ok? && s.similar.Ok? && s.candidates.Ok? && s.scored.Err? ==>
            j.progress == 80 && j.message == Some(s.scored.message))
      && j.id == id && j.userId == userId && j.jobType == ScheduledRefreshJob
      && j.startedAt == Some(start) && j.completedAt == Some(finish) && j.createdAt == start
  {
  }

  /**
   * As written, a refresh whose discovery ranks two or more similar users
   * fails at 40 with the constraint's `IntegrityError`.
   */
  lemma RefreshFailsAsWritten(id: int, synced: Result<seq<GhRepo>>, s: Stages, start: int, finish: int,
                              similarBefore: seq<SimilarUser>, starred: seq<StarredRepo>,
                              cache: Option<map<string, seq<string>>>, run: Run)
    requires synced.Ok? && s.profile.Ok?
    requires s.similar == SimilarUsers.DiscoverAsWritten(similarBefore, starred, run.userId, cache, run.api,
                                                         run.accessToken, run.maxSimilar)
    requires SimilarUsers.DiscoverOutcome(starred, run.userId, cache, run.api, run.accessToken, run.maxSimilar).Ok?
    requires |SimilarUsers.DiscoverOutcome(starred, run.userId, cache, run.api, run.accessToken, run.maxSimilar).value| >= 2
    ensures var j := RefreshJob(id, run.userId, synced, s, start, finish);
      j.status == Failed && j.progress == 40 && j.message == Some(SimilarUsers.DeclaredKeyClash)
  {
    SimilarUsers.DiscoveryFailsAsWritten(similarBefore, starred, run.userId, cache, run.api, run.accessToken, run.maxSimilar);
    RefreshJobSettles(id, run.userId, synced, s, start, finish);
  }

  /** Step 5: scoring, then the completion or failure write. */
  method ScoreStep(db: Database, id: int, run: Run, finish: int) returns (scored: Result<seq<RecommendationEngine.Scored>>)
    requires db.Valid() && 1 <= id <= |db.jobs|
    modifies db`jobs, db`recommendations
    ensures db.Valid()
    ensures db.jobs == old(db.jobs)[id - 1 := ScoredRefresh(old(db.jobs)[id - 1], scored, finish)]
    ensures ScoringEffect(old(db.recommendations), db.recommendations, db.users, db.candidates, run, scored)
  {
    scored := RecommendationEngine.GenerateRecommendations(db, run.userId, RecommendationEngine.DefaultTopN, run.o,
                                                           run.batchId, run.scoredAt);
    if scored.Err? {
      db.Fail(id, scored.message, finish);
    } else {
      db.Complete(id, RefreshedMessage(|scored.value|), finish);
    }
  }

  /** Step 4: the user's starred ids and gathering, then the rest. */
  method CandidateStep(db: Database, redis: RedisCache?, id: int, run: Run, finish: int)
    returns (ghost candidates: Result<seq<SimilarUsers.Candidate>>, ghost scored: Result<seq<RecommendationEngine.Scored>>)
    requires db.Valid() && 1 <= id <= |db.jobs|
    modifies db`jobs, db`candidates, db`recommendations, Present(redis)`userStarred
    ensures db.Valid()
    ensures db.jobs == old(db.jobs)[id - 1 := GatheredRefresh(old(db.jobs)[id - 1], candidates, scored, finish)]
    ensures FromCandidates(old(db.candidates), db.candidates, old(db.recommendations), db.recommendations, db.similar,
                           db.starred, db.users, old(SimilarUsers.UserStarredCacheOf(redis)), run, candidates, scored)
    ensures db.similar == old(db.similar) && db.starred == old(db.starred) && db.users == old(db.users)
  {
    var starredIds := StarredIds(db.starred, run.userId);
    var gathered := SimilarUsers.GatherCandidateRepos(db, redis, run.api, run.userId, run.accessToken, starredIds);
    candidates := gathered;
    scored := GatheredStep(db, id, run, gathered, finish);
  }

  /** After gathering: the failure write when it raised, or else progress 80 and scoring. */
  method GatheredStep(db: Database, id: int, run: Run, candidates: Result<seq<SimilarUsers.Candidate>>, finish: int)
    returns (scored: Result<seq<RecommendationEngine.Scored>>)
    requires db.Valid() && 1 <= id <= |db.jobs|
    modifies db`jobs, db`recommendations
    ensures db.Valid()
    ensures db.jobs == old(db.jobs)[id - 1 := GatheredRefresh(old(db.jobs)[id - 1], candidates, scored, finish)]
    ensures candidates.Err? || ScoringEffect(old(db.recommendations), db.recommendations, db.users, db.candidates, run, scored)
    ensures candidates.Ok? || db.recommendations == old(db.recommendations)
    ensures db.candidates == old(db.candidates) && db.similar == old(db.similar) && db.starred == old(db.starred)
    ensures db.users == old(db.users)
  {
    scored := Ok([]);
    if candidates.Err? {
      db.Fail(id, candidates.message, finish);
      return;
    }
    ghost var jobs, job := db.jobs, db.jobs[id - 1];
    db.SetProgress(id, 80, CandidatesFound);
    scored := ScoreStep(db, id, run, finish);
    OverwriteRow(jobs, id - 1, Staged(job, 80, CandidatesFound), GatheredRefresh(job, candidates, scored, finish));
  }

  /** Step 3: discovery, then the rest unless it raised. */
  method SimilarStep(db: Database, redis: RedisCache?, id: int, run: Run, finish: int) returns (ghost s: Stages)
    requires db.Valid() && 1 <= id <= |db.jobs|
    modifies db`jobs, db`similar, db`candidates, db`recommendations
    modifies Present(redis)`stargazers, Present(redis)`userStarred
    ensures db.Valid()
    ensures db.jobs == old(db.jobs)[id - 1 := DiscoveredRefresh(old(db.jobs)[id - 1], s.similar, s.candidates, s.scored, finish)]
    ensures FromSimilar(old(db.similar), db.similar, old(db.candidates), db.candidates, old(db.recommendations),
                        db.recommendations, db.starred, db.users, old(SimilarUsers.StargazerCacheOf(redis)),
                        old(SimilarUsers.UserStarredCacheOf(redis)), run, s)
    ensures db.users == old(db.users) && db.starred == old(db.starred)
  {
    var similar := SimilarUsers.DiscoverSimilarUsers(db, redis, run.api, run.userId, run.accessToken, run.maxSimilar);
    s := SimilarFoundStep(db, redis, id, run, similar, finish);
  }

  /** After discovery: the failure write when it raised, or else progress 60 and the candidate step. */
  method SimilarFoundStep(db: Database, redis: RedisCache?, id: int, run: Run,
                          similar: Result<seq<SimilarUsers.SimilarEntry>>, finish: int) returns (ghost s: Stages)
    requires db.Valid() && 1 <= id <= |db.jobs|
    modifies db`jobs, db`candidates, db`recommendations, Present(redis)`userStarred
    ensures db.Valid()
    ensures s.similar == similar
    ensures db.jobs == old(db.jobs)[id - 1 := DiscoveredRefresh(old(db.jobs)[id - 1], similar, s.candidates, s.scored, finish)]
    ensures similar.Err? || FromCandidates(old(db.candidates), db.candidates, old(db.recommendations), db.recommendations,
                                           db.similar, db.starred, db.users, old(SimilarUsers.UserStarredCacheOf(redis)),
                                           run, s.candidates, s.scored)
    ensures similar.Ok? || (db.candidates == old(db.candidates) && db.recommendations == old(db.recommendations))
    ensures db.similar == old(db.similar) && db.starred == old(db.starred) && db.users == old(db.users)
  {
    s := Stages(Ok(None), similar, Ok([]), Ok([]));
    if similar.Err? {
      db.Fail(id, similar.message, finish);
      return;
    }
    ghost var jobs, job := db.jobs, db.jobs[id - 1];
    ghost var candidates0, recs0, userStarred := db.candidates, db.recommendations, SimilarUsers.UserStarredCacheOf(redis);
    db.SetProgress(id, 60, SimilarFound);
    assert db.candidates == candidates0 && db.recommendations == recs0;
    assert SimilarUsers.UserStarredCacheOf(redis) == userStarred;
    var candidates, scored := CandidateStep(db, redis, id, run, finish);
    s := s.(candidates := candidates, scored := scored);
    OverwriteRow(jobs, id - 1, Staged(job, 60, SimilarFound), DiscoveredRefresh(job, similar, s.candidates, s.scored, finish));
  }

  /** After the profile: the failure write when it raised, or else progress 40 and the similar-users step. */
  method ProfileUpdatedStep(db: Database, redis: RedisCache?, id: int, run: Run, profile: Result<Option<Json>>, finish: int)
    returns (ghost s: Stages)
    requires db.Valid() && 1 <= id <= |db.jobs|
    modifies db`jobs, db`similar, db`candidates, db`recommendations
    modifies Present(redis)`stargazers, Present(redis)`userStarred
    ensures db.Valid()
    ensures s.profile == profile
    ensures db.jobs == old(db.jobs)[id - 1 := AnalyzedRefresh(old(db.jobs)[id - 1], s, finish)]
    ensures profile.Err? || FromSimilar(old(db.similar), db.similar, old(db.candidates), db.candidates,
                                        old(db.recommendations), db.recommendations, db.starred, db.users,
                                        old(SimilarUsers.StargazerCacheOf(redis)), old(SimilarUsers.UserStarredCacheOf(redis)),
                                        run, s)
    ensures profile.Ok? || (db.similar == old(db.similar) && db.candidates == old(db.candidates)
                            && db.recommendations == old(db.recommendations))
    ensures db.users == old(db.users) && db.starred == old(db.starred)
  {
    s := Stages(profile, Ok([]), Ok([]), Ok([]));
    if profile.Err? {
      db.Fail(id, profile.message, finish);
      return;
    }
    ghost var jobs, job := db.jobs, db.jobs[id - 1];
    ghost var similar0, candidates0, recs0 := db.similar, db.candidates, db.recommendations;
    ghost var gazers0, userStarred0 := SimilarUsers.StargazerCacheOf(redis), SimilarUsers.UserStarredCacheOf(redis);
    db.SetProgress(id, 40, ProfileUpdated);
    assert db.similar == similar0 && db.candidates == candidates0 && db.recommendations == recs0;
    assert SimilarUsers.StargazerCacheOf(redis) == gazers0 && SimilarUsers.UserStarredCacheOf(redis) == userStarred0;
    var rest := SimilarStep(db, redis, id, run, finish);
    s := rest.(profile := profile);
    OverwriteRow(jobs, id - 1, Staged(job, 40, ProfileUpdated), AnalyzedRefresh(job, s, finish));
  }

  /** Step 2: the taste profile, then the rest of the refresh. */
  method ProfileStep(db: Database, redis: RedisCache?, id: int, run: Run, finish: int) returns (ghost s: Stages)
    requires db.Valid() && 1 <= id <= |db.jobs|
    modifies db`jobs, db`users, db`similar, db`candidates, db`recommendations
    modifies Present(redis)`stargazers, Present(redis)`userStarred
    ensures db.Valid()
    ensures db.jobs == old(db.jobs)[id - 1 := AnalyzedRefresh(old(db.jobs)[id - 1], s, finish)]
    ensures FromProfile(old(db.users), db.users, old(db.similar), db.similar, old(db.candidates), db.candidates,
                        old(db.recommendations), db.recommendations, db.starred,
                        old(SimilarUsers.StargazerCacheOf(redis)), old(SimilarUsers.UserStarredCacheOf(redis)), run, s)
    ensures db.starred == old(db.starred)
  {
    ghost var similar0, candidates0, recs0 := db.similar, db.candidates, db.recommendations;
    ghost var gazers0, userStarred0 := SimilarUsers.StargazerCacheOf(redis), SimilarUsers.UserStarredCacheOf(redis);
    var profile := BuildProfile(db, run);
    assert db.similar == similar0 && db.candidates == candidates0 && db.recommendations == recs0;
    assert SimilarUsers.StargazerCacheOf(redis) == gazers0 && SimilarUsers.UserStarredCacheOf(redis) == userStarred0;
    s := ProfileUpdatedStep(db, redis, id, run, profile, finish);
  }

  /** The sync itself: fetch the starred repositories, then replace the user's rows with them in one commit. */
  method SyncStars(db: Database, redis: RedisCache?, run: Run) returns (synced: Result<seq<GhRepo>>)
    requires db.Valid()
    modifies db`starred
    ensures db.Valid()
    ensures synced == SyncOutcome(run.api, run.accessToken, run.userId)
    ensures db.starred == StarredAfter(old(db.starred), run.userId, FetchStarred(run.api, run.accessToken))
  {
    var client := new GitHubClient(run.accessToken, redis, run.api);
    var repos := client.GetStarredRepos();
    if repos.Err? {
      return Err(repos.message);
    }
    var rows := BuildStarredRows(run.userId, repos.value);
    var ok := db.ReplaceStarred(run.userId, rows);
    if !ok {
      return Err(DuplicateStarred);
    }
    synced := repos;
  }

  /** Step 1: the sync, then the rest of the refresh. */
  method SyncStep(db: Database, redis: RedisCache?, id: int, run: Run, finish: int)
    returns (ghost synced: Result<seq<GhRepo>>, ghost s: Stages)
    requires db.Valid() && 1 <= id <= |db.jobs|
    modifies db`jobs, db`starred, db`users, db`similar, db`candidates, db`recommendations
    modifies Present(redis)`stargazers, Present(redis)`userStarred
    ensures db.Valid()
    ensures synced == SyncOutcome(run.api, run.accessToken, run.userId)
    ensures db.starred == StarredAfter(old(db.starred), run.userId, FetchStarred(run.api, run.accessToken))
    ensures db.jobs == old(db.jobs)[id - 1 := SyncedRefresh(old(db.jobs)[id - 1], synced, s, finish)]
    ensures synced.Err? || FromProfile(old(db.users), db.users, old(db.similar), db.similar, old(db.candidates), db.candidates,
                                       old(db.recommendations), db.recommendations, db.starred,
                                       old(SimilarUsers.StargazerCacheOf(redis)), old(SimilarUsers.UserStarredCacheOf(redis)),
                                       run, s)
    ensures synced.Ok? || (db.users == old(db.users) && db.similar == old(db.similar) && db.candidates == old(db.candidates)
                           && db.recommendations == old(db.recommendations))
  {
    ghost var users0, similar0, candidates0, recs0 := db.users, db.similar, db.candidates, db.recommendations;
    ghost var gazers0, userStarred0 := SimilarUsers.StargazerCacheOf(redis), SimilarUsers.UserStarredCacheOf(redis);
    var result := SyncStars(db, redis, run);
    synced := result;
    assert db.users == users0 && db.similar == similar0 && db.candidates == candidates0 && db.recommendations == recs0;
    assert SimilarUsers.StargazerCacheOf(redis) == gazers0 && SimilarUsers.UserStarredCacheOf(redis) == userStarred0;
    s := SyncedStep(db, redis, id, run, result, finish);
  }

  /** After the sync: the failure write when it raised, or else progress 20 with the count and the profile step. */
  method SyncedStep(db: Database, redis: RedisCache?, id: int, run: Run, synced: Result<seq<GhRepo>>, finish: int)
    returns (ghost s: Stages)
    requires db.Valid() && 1 <= id <= |db.jobs|
    modifies db`jobs, db`users, db`similar, db`candidates, db`recommendations
    modifies Present(redis)`stargazers, Present(redis)`userStarred
    ensures db.Valid()
    ensures db.jobs == old(db.jobs)[id - 1 := SyncedRefresh(old(db.jobs)[id - 1], synced, s, finish)]
    ensures synced.Err? || FromProfile(old(db.users), db.users, old(db.similar), db.similar, old(db.candidates), db.candidates,
                                       old(db.recommendations), db.recommendations, db.starred,
                                       old(SimilarUsers.StargazerCacheOf(redis)), old(SimilarUsers.UserStarredCacheOf(redis)),
                                       run, s)
    ensures synced.Ok? || (db.users == old(db.users) && db.similar == old(db.similar) && db.candidates == old(db.candidates)
                           && db.recommendations == old(db.recommendations))
    ensures db.starred == old(db.starred)
  {
    s := Stages(Ok(None), Ok([]), Ok([]), Ok([]));
    if synced.Err? {
      db.Fail(id, synced.message, finish);
      return;
    }
    ghost var jobs, job := db.jobs, db.jobs[id - 1];
    ghost var users0, similar0, candidates0, recs0 := db.users, db.similar, db.candidates, db.recommendations;
    ghost var gazers0, userStarred0 := SimilarUsers.StargazerCacheOf(redis), SimilarUsers.UserStarredCacheOf(redis);
    db.SetProgress(id, 20, SyncedMessage(|synced.value|));
    assert db.users == users0 && db.similar == similar0 && db.candidates == candidates0 && db.recommendations == recs0;
    assert SimilarUsers.StargazerCacheOf(redis) == gazers0 && SimilarUsers.UserStarredCacheOf(redis) == userStarred0;
    s := ProfileStep(db, redis, id, run, finish);
    OverwriteRow(jobs, id - 1, Staged(job, 20, SyncedMessage(|synced.value|)), SyncedRefresh(job, synced, s, finish));
  }

  /** The configuration every refresh shares: `max_similar_users`, the GitHub API and the text-service oracles. */
  datatype Settings = Settings(maxSimilar: nat, api: GitHubApi, o: RecommendationEngine.Oracles)

  /** What one refresh draws: its batch id and the clock at the start, the profile write, the scoring write and the end. */
  datatype Draws = Draws(batchId: string, start: int, profileAt: int, scoredAt: int, finish: int)

  /** The run of the stages for a user and the token read from their row. */
  function RunFor(cfg: Settings, d: Draws, userId: int, accessToken: string): Run {
    Run(userId, accessToken, cfg.maxSimilar, cfg.api, cfg.o, d.batchId, d.profileAt, d.scoredAt)
  }

  /** The users keep their rows and their tokens. */
  predicate SameAccounts(before: map<int, User>, after: map<int, User>) {
    before.Keys == after.Keys && forall u :: u in before ==> after[u].accessToken == before[u].accessToken
  }

  /** Building a taste profile keeps every user row and its token. */
  lemma ProfileKeepsAccounts(users: map<int, User>, starred: seq<StarredRepo>, run: Run)
    ensures SameAccounts(users, ProfileAnalyzer.UsersAfter(users, starred, run.userId, run.o.llm, run.o.loads, run.profileAt))
  {
    var repos := ProfileAnalyzer.ProfileRepos(starred, run.userId);
    var reply := ProfileAnalyzer.ProfileReply(starred, run.userId, run.o.llm, run.o.loads);
    var out := ProfileAnalyzer.Outcome(repos, reply, users, run.userId);
    assert out == ProfileAnalyzer.ProfileOutcome(users, starred, run.userId, run.o.llm, run.o.loads);
    ProfileAnalyzer.OutcomeStorable(repos, reply, users, run.userId);
    ProfileAnalyzer.StoredFacts(out, users, run.userId, run.profileAt);
  }

  /**
   * A refresh keeps every user row and its token (a profile build writes
   * only the profile columns), and every other user's starred rows.
   */
  lemma RefreshKeepsOthers(usersBefore: map<int, User>, usersAfter: map<int, User>,
                           starredBefore: seq<StarredRepo>, starredAfter: seq<StarredRepo>,
                           run: Run, synced: Result<seq<GhRepo>>, profile: Result<Option<Json>>)
    requires starredAfter == StarredAfter(starredBefore, run.userId, FetchStarred(run.api, run.accessToken))
    requires synced.Ok? ==> ProfileEffect(usersBefore, usersAfter, starredAfter, run, profile)
    requires synced.Err? ==> usersAfter == usersBefore
    ensures SameAccounts(usersBefore, usersAfter)
    ensures forall v :: v != run.userId ==> OfUser(starredAfter, StarredKey, v) == OfUser(starredBefore, StarredKey, v)
  {
    if synced.Ok? {
      ProfileKeepsAccounts(usersBefore, starredAfter, run);
    }
    forall v | v != run.userId
      ensures OfUser(starredAfter, StarredKey, v) == OfUser(starredBefore, StarredKey, v)
    {
      SyncReplacesStars(starredBefore, run.userId, FetchStarred(run.api, run.accessToken), v);
    }
  }

  /** The refresh of an eligible user: the job row is added running at 0, then the sync and the stages run. */
  method StartRefresh(db: Database, redis: RedisCache?, run: Run, d: Draws)
    returns (ghost synced: Result<seq<GhRepo>>, ghost s: Stages)
    requires db.Valid()
    modifies db`jobs, db`starred, db`users, db`similar, db`candidates, db`recommendations
    modifies Present(redis)`stargazers, Present(redis)`userStarred
    ensures db.Valid()
    ensures synced == SyncOutcome(run.api, run.accessToken, run.userId)
    ensures db.jobs == old(db.jobs) + [RefreshJob(|old(db.jobs)| + 1, run.userId, synced, s, d.start, d.finish)]
    ensures db.starred == StarredAfter(old(db.starred), run.userId, FetchStarred(run.api, run.accessToken))
    ensures synced.Err? || FromProfile(old(db.users), db.users, old(db.similar), db.similar, old(db.candidates), db.candidates,
                                       old(db.recommendations), db.recommendations, db.starred,
                                       old(SimilarUsers.StargazerCacheOf(redis)), old(SimilarUsers.UserStarredCacheOf(redis)),
                                       run, s)
    ensures synced.Ok? || (db.users == old(db.users) && db.similar == old(db.similar) && db.candidates == old(db.candidates)
                           && db.recommendations == old(db.recommendations))
  {
    var id := db.AddJob(run.userId, ScheduledRefreshJob, Some(RefreshStarted), d.start);
    synced, s := SyncStep(db, redis, id, run, d.finish);
  }

  /**
   * `refresh_user_recommendations(user_id)`: a user who is missing, has no
   * token or has no starred repository is skipped with nothing written.
   * Otherwise a `scheduled_refresh` row is added running at 0, and the
   * sync and the four stages run in turn, the row moving to 20, 40, 60 and
   * 80 after each; the first step to raise fails the row, and what the
   * steps before it stored stays.  Other users' starred rows, and every
   * user's existence and token, are left as they were.
   */
  method RefreshUserRecommendations(db: Database, redis: RedisCache?, cfg: Settings, d: Draws, userId: int)
    returns (ghost synced: Result<seq<GhRepo>>, ghost s: Stages)
    requires db.Valid()
    modifies db`jobs, db`starred, db`users, db`similar, db`candidates, db`recommendations
    modifies Present(redis)`stargazers, Present(redis)`userStarred
    ensures db.Valid()
    ensures !Eligible(old(db.users), old(db.starred), userId) ==>
      db.jobs == old(db.jobs) && db.starred == old(db.starred) && db.users == old(db.users)
      && db.similar == old(db.similar) && db.candidates == old(db.candidates)
      && db.recommendations == old(db.recommendations)
    ensures Eligible(old(db.users), old(db.starred), userId) ==>
      var run := RunFor(cfg, d, userId, old(db.users)[userId].accessToken);
      && synced == SyncOutcome(cfg.api, run.accessToken, userId)
      && db.jobs == old(db.jobs) + [RefreshJob(|old(db.jobs)| + 1, userId, synced, s, d.start, d.finish)]
      && db.starred == StarredAfter(old(db.starred), userId, FetchStarred(cfg.api, run.accessToken))
      && (synced.Ok? ==> FromProfile(old(db.users), db.users, old(db.similar), db.similar, old(db.candidates),
                                     db.candidates, old(db.recommendations), db.recommendations, db.starred,
                                     old(SimilarUsers.StargazerCacheOf(redis)),
                                     old(SimilarUsers.UserStarredCacheOf(redis)), run, s))
    ensures SameAccounts(old(db.users), db.users)
    ensures forall v :: v != userId ==> OfUser(db.starred, StarredKey, v) == OfUser(old(db.starred), StarredKey, v)
  {
    synced, s := Err(""), Stages(Ok(None), Ok([]), Ok([]), Ok([]));
    if userId !in db.users || db.users[userId].accessToken == "" || OfUser(db.starred, StarredKey, userId) == [] {
      return;
    }
    var run := RunFor(cfg, d, userId, db.users[userId].accessToken);
    ghost var users, starred := db.users, db.starred;
    synced, s := StartRefresh(db, redis, run, d);
    RefreshKeepsOthers(users, db.users, starred, db.starred, run, synced, s.profile);
  }

  // ---------------------------------------------------------------------
  // The weekly loop
  // ---------------------------------------------------------------------

  /** The owner of every starred row, in table order. */
  function StarredOwners(starred: seq<StarredRepo>): (r: seq<int>)
    ensures |r| == |starred|
    ensures forall k :: 0 <= k < |starred| ==> r[k] == starred[k].userId
  {
    seq(|starred|, k requires 0 <= k < |starred| => starred[k].userId)
  }

  /** A user owns a starred row exactly when selecting their rows finds one. */
  lemma OwnsStarred(starred: seq<StarredRepo>, u: int)
    ensures u in StarredOwners(starred) <==> OfUser(starred, StarredKey, u) != []
  {
    var owners := StarredOwners(starred);
    var mine := OfUser(starred, StarredKey, u);
    if u in owners {
      var k :| 0 <= k < |owners| && owners[k] == u;
      assert StarredKey(starred[k]).0 == u;
      assert starred[k] in mine;
    }
    if mine != [] {
      assert mine[0] in starred;
      var k :| 0 <= k < |starred| && starred[k] == mine[0];
      assert owners[k] == u;
    }
  }

  /**
   * `SELECT DISTINCT users.id FROM users JOIN starred_repos ON ...`: every
   * user with a row and a starred repository, once each, in the order of
   * their first starred row.
   */
  function RefreshUserIds(users: map<int, User>, starred: seq<StarredRepo>): (ids: seq<int>)
    ensures Distinct(ids)
    ensures forall u :: u in ids <==> u in users && OfUser(starred, StarredKey, u) != []
  {
    var owners := StarredOwners(starred);
    forall u ensures u in owners <==> OfUser(starred, StarredKey, u) != [] {
      OwnsStarred(starred, u);
    }
    Dedup(Filter(owners, (u: int) => u in users))
  }

  /** The user has a row with a non-empty token. */
  predicate HasToken(users: map<int, User>, u: int) {
    u in users && users[u].accessToken != ""
  }

  /** The users of `ids` with a token, in order. */
  function WithToken(users: map<int, User>, ids: seq<int>): (r: seq<int>)
    ensures forall u :: u in r <==> u in ids && HasToken(users, u)
  {
    if ids == [] then []
    else
      var last := ids[|ids| - 1];
      assert forall u :: u in ids <==> u in ids[..|ids| - 1] || u == last;
      WithToken(users, ids[..|ids| - 1]) + (if HasToken(users, last) then [last] else [])
  }

  /** One more listed user: kept when they have a token. */
  lemma WithTokenStep(users: map<int, User>, ids: seq<int>, i: nat)
    requires i < |ids|
    ensures WithToken(users, ids[..i + 1])
      == WithToken(users, ids[..i]) + (if HasToken(users, ids[i]) then [ids[i]] else [])
  {
    assert ids[..i + 1][..i] == ids[..i];
  }

  /**
   * The job rows a weekly run adds: one `scheduled_refresh` row per user of
   * `refreshed`, in that order, numbered on from `base`, each completed or failed.
   */
  predicate RefreshRows(rows: seq<JobStatus>, refreshed: seq<int>, base: int) {
    && |rows| == |refreshed|
    && forall k :: 0 <= k < |rows| ==>
         && rows[k].id == base + k + 1 && rows[k].userId == refreshed[k]
         && rows[k].jobType == ScheduledRefreshJob
         && (rows[k].status == Completed || rows[k].status == Failed)
  }

  /** Keeping the accounts twice keeps them. */
  lemma SameAccountsTrans(a: map<int, User>, b: map<int, User>, c: map<int, User>)
    requires SameAccounts(a, b) && SameAccounts(b, c)
    ensures SameAccounts(a, c)
  {
  }

  /**
   * A listed user whose row and starred repositories are as they were when
   * the list was read is refreshed exactly when they have a token.
   */
  lemma EligibleAtTurn(users0: map<int, User>, starred0: seq<StarredRepo>,
                       users: map<int, User>, starred: seq<StarredRepo>, u: int)
    requires u in users0 && OfUser(starred0, StarredKey, u) != []
    requires SameAccounts(users0, users)
    requires OfUser(starred, StarredKey, u) == OfUser(starred0, StarredKey, u)
    ensures Eligible(users, starred, u) <==> HasToken(users0, u)
  {
  }

  /** One more settled row, for the next user refreshed. */
  lemma RefreshRowsAppend(rows: seq<JobStatus>, refreshed: seq<int>, base: int, row: JobStatus)
    requires RefreshRows(rows, refreshed, base)
    requires row.id == base + |rows| + 1 && row.jobType == ScheduledRefreshJob
    requires row.status == Completed || row.status == Failed
    ensures RefreshRows(rows + [row], refreshed + [row.userId], base)
  {
  }

  /**
   * One turn of the weekly loop: the user's refresh inside its `try` (the
   * pause after it is left out).  An eligible user gains one settled row,
   * anyone else none, and nothing a later turn reads is changed.
   */
  method RefreshTurn(db: Database, redis: RedisCache?, cfg: Settings, d: Draws, userId: int) returns (ghost row: JobStatus)
    requires db.Valid()
    modifies db`jobs, db`starred, db`users, db`similar, db`candidates, db`recommendations
    modifies Present(redis)`stargazers, Present(redis)`userStarred
    ensures db.Valid()
    ensures SameAccounts(old(db.users), db.users)
    ensures forall v :: v != userId ==> OfUser(db.starred, StarredKey, v) == OfUser(old(db.starred), StarredKey, v)
    ensures !Eligible(old(db.users), old(db.starred), userId) ==> db.jobs == old(db.jobs)
    ensures Eligible(old(db.users), old(db.starred), userId) ==>
      && db.jobs == old(db.jobs) + [row]
      && row.id == |old(db.jobs)| + 1 && row.userId == userId && row.jobType == ScheduledRefreshJob
      && (row.status == Completed || row.status == Failed)
  {
    var synced, s := RefreshUserRecommendations(db, redis, cfg, d, userId);
    row := RefreshJob(|old(db.jobs)| + 1, userId, synced, s, d.start, d.finish);
    RefreshJobSettles(|old(db.jobs)| + 1, userId, synced, s, d.start, d.finish);
  }

  /**
   * `weekly_refresh_all_users()`: the users to refresh are read once, then
   * refreshed one after another.  A refresh that fails marks its own row
   * failed and the loop goes on, so every listed user with a token ends
   * with exactly one settled row of their own, in list order, and users
   * without a token get none.  `draws` gives each user's batch id and
   * clock readings.
   */
  method WeeklyRefreshAllUsers(db: Database, redis: RedisCache?, cfg: Settings, draws: int -> Draws)
    returns (ids: seq<int>, ghost rows: seq<JobStatus>)
    requires db.Valid()
    modifies db`jobs, db`starred, db`users, db`similar, db`candidates, db`recommendations
    modifies Present(redis)`stargazers, Present(redis)`userStarred
    ensures db.Valid()
    ensures ids == RefreshUserIds(old(db.users), old(db.starred))
    ensures db.jobs == old(db.jobs) + rows
    ensures RefreshRows(rows, WithToken(old(db.users), ids), |old(db.jobs)|)
  {
    ghost var jobs0, users0, starred0 := db.jobs, db.users, db.starred;
    ids := RefreshUserIds(db.users, db.starred);
    rows := [];
    var i := 0;
    while i < |ids|
      invariant 0 <= i <= |ids|
      invariant db.Valid()
      invariant SameAccounts(users0, db.users)
      invariant forall k :: i <= k < |ids| ==> OfUser(db.starred, StarredKey, ids[k]) == OfUser(starred0, StarredKey, ids[k])
      invariant db.jobs == jobs0 + rows
      invariant RefreshRows(rows, WithToken(users0, ids[..i]), |jobs0|)
    {
      var u := ids[i];
      ghost var users := db.users;
      assert u in users0 && OfUser(starred0, StarredKey, u) != [];
      EligibleAtTurn(users0, starred0, db.users, db.starred, u);
      var row := RefreshTurn(db, redis, cfg, draws(u), u);
      SameAccountsTrans(users0, users, db.users);
      forall k | i + 1 <= k < |ids|
        ensures OfUser(db.starred, StarredKey, ids[k]) == OfUser(starred0, StarredKey, ids[k])
      {
        assert ids[k] != u;
      }
      WithTokenStep(users0, ids, i);
      if HasToken(users0, u) {
        RefreshRowsAppend(rows, WithToken(users0, ids[..i]), |jobs0|, row);
        AppendOne(jobs0, rows, row);
        rows := rows + [row];
      }
      i := i + 1;
    }
    assert ids[..i] == ids;
  }

  // ---------------------------------------------------------------------
  // The cron job
  // ---------------------------------------------------------------------

  /** The day names `setup_scheduler` accepts, with the numbers cron gives them. */
  const DayMap: map<string, int> := map[
    "monday" := 0, "tuesday" := 1, "wednesday" := 2, "thursday" := 3,
    "friday" := 4, "saturday" := 5, "sunday" := 6]

  /** `day_map.get(weekly_refresh_day.lower(), 6)`: an unknown name means Sunday. */
  function DayOfWeek(day: string): (d: int)
    ensures 0 <= d <= 6
    ensures Text.Lower(day) in DayMap ==> d == DayMap[Text.Lower(day)]
    ensures Text.Lower(day) !in DayMap ==> d == 6
  {
    var key := Text.Lower(day);
    if key in DayMap then DayMap[key] else 6
  }

  /** A cron trigger: the day of the week (0 is Monday), the hour and the minute. */
  datatype CronTrigger = CronTrigger(dayOfWeek: int, hour: int, minute: int)

  /** A job registered with the scheduler: its name and its trigger. */
  datatype CronJob = CronJob(name: string, trigger: CronTrigger)

  const WeeklyRefreshId: string := "weekly_refresh"
  const WeeklyRefreshName: string := "Weekly recommendation refresh"

  /** The scheduler's job store, keyed by job id. */
  class AsyncScheduler {
    var jobs: map<string, CronJob>

    constructor()
      ensures jobs == map[]
    {
      jobs := map[];
    }

    /** `add_job(..., id=id, replace_existing=True)`: a job with the same id is replaced. */
    method AddJob(id: string, job: CronJob)
      modifies this
      ensures jobs == old(jobs)[id := job]
    {
      jobs := jobs[id := job];
    }
  }

  /**
   * `setup_scheduler()`: the weekly refresh fires on the configured day at
   * the configured hour, on the hour; setting up again replaces it.
   */
  method SetupScheduler(scheduler: AsyncScheduler, weeklyRefreshDay: string, weeklyRefreshHour: int)
    modifies scheduler
    ensures scheduler.jobs == old(scheduler.jobs)[WeeklyRefreshId := CronJob(WeeklyRefreshName,
      CronTrigger(DayOfWeek(weeklyRefreshDay), weeklyRefreshHour, 0))]
  {
    var dayOfWeek := DayOfWeek(weeklyRefreshDay);
    var trigger := CronTrigger(dayOfWeek, weeklyRefreshHour, 0);
    scheduler.AddJob(WeeklyRefreshId, CronJob(WeeklyRefreshName, trigger));
  }

  /** Lower-casing leaves a string without capitals as it is. */
  lemma {:induction false} LowerOfLower(s: string)
    requires forall k :: 0 <= k < |s| ==> !('A' <= s[k] <= 'Z')
    ensures Text.Lower(s) == s
  {
    var r := Text.Lower(s);
    assert forall k :: 0 <= k < |s| ==> r[k] == s[k];
  }

  /**
   * Each day name, written in any mix of cases, selects its own day:
   * a name whose lower-case form is the `k`-th day gives `k`, and two names
   * give the same day only when they name the same day or neither is known.
   */
  lemma DayNamesSelectTheirDay(day: string, other: string)
    ensures Text.Lower(day) == "monday" ==> DayOfWeek(day) == 0
    ensures Text.Lower(day) == "sunday" ==> DayOfWeek(day) == 6
    ensures Text.Lower(day) in DayMap && Text.Lower(other) in DayMap ==>
      (DayOfWeek(day) == DayOfWeek(other) <==> Text.Lower(day) == Text.Lower(other))
  {
  }

  /** The configured default day, `"sunday"`, is day 6 however it is capitalised. */
  lemma DefaultDayIsSunday()
    ensures DayOfWeek("sunday") == 6
    ensures DayOfWeek("Sunday") == 6
  {
    LowerOfLower("sunday");
    var upper := Text.Lower("Sunday");
    assert upper[0] == 's';
    assert upper == "sunday";
  }
}
