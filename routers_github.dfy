/**
 * The GitHub endpoints: the session lookup every endpoint starts with, the
 * guard against a second running star sync, the sync task with its job row,
 * the latest sync's status, and the cached starred list.
 */
module GithubRouter {
  import opened Wrappers
  import opened Records
  import opened Tables
  import opened Seqs
  import Text
  import opened GithubClient

  /** An endpoint's answer, or the `HTTPException` it raises. */
  datatype Reply<+T> = Reply(value: T) | Raise(status: int, detail: string)

  /** The message of SQLAlchemy's `MultipleResultsFound` from `scalar_one_or_none()`. */
  const MultipleRows: string := "Multiple rows were found when one or none was required"

  /** The message of the `IntegrityError` a repeated starred repository raises on flush. */
  const DuplicateStarred: string := "IntegrityError: UNIQUE constraint failed: starred_repos.user_id, starred_repos.github_repo_id"

  /**
   * `get_user_from_session`: no user id in the session (or a falsy one)
   * is 401, an id with no user row is 404.
   */
  function SessionUser(users: map<int, User>, session: Option<int>): (r: Reply<User>)
    ensures r.Reply? <==> session.Some? && session.value != 0 && session.value in users
    ensures r.Reply? ==> r.value == users[session.value]
    ensures session.None? || session.value == 0 ==> r == Raise(401, "Not authenticated")
    ensures session.Some? && session.value != 0 && session.value !in users ==> r == Raise(404, "User not found")
  {
    if session.None? || session.value == 0 then Raise(401, "Not authenticated")
    else if session.value !in users then Raise(404, "User not found")
    else Reply(users[session.value])
  }

  // ---------------------------------------------------------------------
  // Starting a job: the duplicate-run guard
  // ---------------------------------------------------------------------

  /** The running jobs of one type for one user, in table order. */
  function RunningJobs(jobs: seq<JobStatus>, userId: int, jobType: string): seq<JobStatus> {
    Filter(jobs, (j: JobStatus) => j.userId == userId && j.jobType == jobType && j.status == Running)
  }

  /**
   * The guard of an endpoint that starts a job: `scalar_one_or_none()` on
   * the running jobs of that type finds none (go ahead), one (400 with the
   * endpoint's message) or several (it raises, a 500).
   */
  function StartGuard(jobs: seq<JobStatus>, userId: int, jobType: string, busy: string): (r: Reply<()>)
    ensures r.Reply? <==> RunningJobs(jobs, userId, jobType) == []
    ensures r == Raise(400, busy) <==> |RunningJobs(jobs, userId, jobType)| == 1
    ensures |RunningJobs(jobs, userId, jobType)| >= 2 ==> r == Raise(500, MultipleRows)
  {
    var running := RunningJobs(jobs, userId, jobType);
    if running == [] then Reply(())
    else if |running| == 1 then Raise(400, busy)
    else Raise(500, MultipleRows)
  }

  /** `POST /sync-stars`: the reply; when it is accepted the sync task runs next. */
  function SyncStarsReply(users: map<int, User>, jobs: seq<JobStatus>, session: Option<int>): Reply<string> {
    match SessionUser(users, session)
    case Raise(s, d) => Raise(s, d)
    case Reply(user) =>
      match StartGuard(jobs, user.id, SyncStarsJob, "Sync already in progress")
      case Raise(s, d) => Raise(s, d)
      case Reply(_) => Reply("Sync started")
  }

  /**
   * For a signed-in user, a sync starts exactly when no sync of theirs is
   * running, and is refused with 400 exactly when one is.
   */
  lemma SyncStarsGuarded(users: map<int, User>, jobs: seq<JobStatus>, session: Option<int>)
    requires SessionUser(users, session).Reply?
    ensures var u := SessionUser(users, session).value.id;
      && (SyncStarsReply(users, jobs, session) == Reply("Sync started") <==> RunningJobs(jobs, u, SyncStarsJob) == [])
      && ((SyncStarsReply(users, jobs, session) == Raise(400, "Sync already in progress"))
            <==> |RunningJobs(jobs, u, SyncStarsJob)| == 1)
  {
  }

  // ---------------------------------------------------------------------
  // The sync task
  // ---------------------------------------------------------------------

  /** The row stored for a fetched repository: a missing topic list is stored as the empty list. */
  function StarredRow(userId: int, repo: GhRepo): (row: StarredRepo)
    ensures row.topics == Some(TopicsOrEmpty(repo))
  {
    StarredRepo(userId, repo.id, repo.fullName, repo.description, Some(TopicsOrEmpty(repo)),
                repo.language, repo.stargazersCount, repo.forksCount)
  }

  function StarredRows(userId: int, repos: seq<GhRepo>): (rows: seq<StarredRepo>)
    ensures |rows| == |repos|
    ensures forall k :: 0 <= k < |repos| ==> rows[k] == StarredRow(userId, repos[k])
  {
    seq(|repos|, k requires 0 <= k < |repos| => StarredRow(userId, repos[k]))
  }

  /** What `get_starred_repos` gives for a token. */
  function FetchStarred(api: GitHubApi, accessToken: string): Result<seq<GhRepo>> {
    CollectPages(OwnPages(api, accessToken), 1, MaxOwnPages, false)
  }

  /** `f"Found {len(repos)} starred repos"`. */
  function FoundMessage(n: nat): string {
    "Found " + Text.NatToString(n) + " starred repos"
  }

  /** `f"Synced {len(repos)} starred repos"`. */
  function SyncedMessage(n: nat): string {
    "Synced " + Text.NatToString(n) + " starred repos"
  }

  /**
   * The sync job row once the task ends.  It starts running at progress 0;
   * a failed fetch fails it there; a fetch followed by a failed replace
   * fails it at 50; otherwise it completes at 100.
   */
  function SyncJobAfter(id: int, userId: int, fetched: Result<seq<GhRepo>>, start: int, finish: int): JobStatus {
    var started := JobStatus(id, userId, SyncStarsJob, Running, 0, None, Some(start), None, start);
    match fetched
    case Err(e) => started.(status := Failed, message := Some(e), completedAt := Some(finish))
    case Ok(repos) =>
      if UniqueBy(StarredRows(userId, repos), StarredKey)
      then started.(status := Completed, progress := 100, message := Some(SyncedMessage(|repos|)), completedAt := Some(finish))
      else started.(status := Failed, progress := 50, message := Some(DuplicateStarred), completedAt := Some(finish))
  }

  /** The user's starred rows after the task: replaced by the fetched ones when the replace commits. */
  function StarredAfter(starred: seq<StarredRepo>, userId: int, fetched: Result<seq<GhRepo>>): seq<StarredRepo> {
    if fetched.Ok? && UniqueBy(StarredRows(userId, fetched.value), StarredKey)
    then Replaced(starred, StarredKey, userId, StarredRows(userId, fetched.value))
    else starred
  }

  /** The insert loop of the sync task. */
  method BuildStarredRows(userId: int, repos: seq<GhRepo>) returns (rows: seq<StarredRepo>)
    ensures rows == StarredRows(userId, repos)
  {
    rows := [];
    for i := 0 to |repos|
      invariant rows == StarredRows(userId, repos[..i])
    {
      rows := rows + [StarredRow(userId, repos[i])];
    }
    assert repos[..|repos|] == repos;
  }

  /**
   * `sync_starred_repos_task(user_id, access_token)`: a job row is added
   * running at 0; the repositories are fetched; the row goes to 50; the
   * user's starred rows are deleted and the fetched ones inserted; the row
   * completes at 100.  Any error fails the row with its message, keeping
   * the progress reached.  `start` and `finish` are the clock readings.
   */
  method SyncStarredReposTask(db: Database, api: GitHubApi, userId: int, accessToken: string,
                              start: int, finish: int) returns (id: int)
    requires db.Valid()
    modifies db`jobs, db`starred
    ensures db.Valid()
    ensures id == |old(db.jobs)| + 1
    ensures db.jobs == old(db.jobs) + [SyncJobAfter(id, userId, FetchStarred(api, accessToken), start, finish)]
    ensures db.starred == StarredAfter(old(db.starred), userId, FetchStarred(api, accessToken))
  {
    id := db.AddJob(userId, SyncStarsJob, None, start);
    var client := new GitHubClient(accessToken, null, api);
    var repos := client.GetStarredRepos();
    if repos.Err? {
      db.Fail(id, repos.message, finish);
      return;
    }
    db.SetProgress(id, 50, FoundMessage(|repos.value|));
    var rows := BuildStarredRows(userId, repos.value);
    var ok := db.ReplaceStarred(userId, rows);
    if !ok {
      db.Fail(id, DuplicateStarred, finish);
      return;
    }
    db.Complete(id, SyncedMessage(|repos.value|), finish);
  }

  /**
   * The job a sync leaves is never pending or running: it completed at 100
   * with the count synced, or failed at 0 or 50 with the error; either way
   * its start and end times are set.
   */
  lemma SyncJobSettles(id: int, userId: int, fetched: Result<seq<GhRepo>>, start: int, finish: int)
    ensures var j := SyncJobAfter(id, userId, fetched, start, finish);
      && (j.status == Completed || j.status == Failed)
      && (j.status == Completed <==> fetched.Ok? && UniqueBy(StarredRows(userId, fetched.value), StarredKey))
      && (j.status == Completed ==> j.progress == 100 && j.message == Some(SyncedMessage(|fetched.value|)))
      && (fetched.Err? ==> j.progress == 0 && j.message == Some(fetched.message))
      && (j.status == Failed && fetched.Ok? ==> j.progress == 50)
      && j.startedAt == Some(start) && j.completedAt == Some(finish) && j.createdAt == start
  {
  }

  /**
   * After a sync that completes, the user's starred rows are exactly the
   * fetched repositories, in fetch order, and every other user's rows are
   * untouched; after one that fails, nothing changed.
   */
  lemma SyncReplacesStars(starred: seq<StarredRepo>, userId: int, fetched: Result<seq<GhRepo>>, other: int)
    requires other != userId
    ensures fetched.Ok? && UniqueBy(StarredRows(userId, fetched.value), StarredKey) ==>
      OfUser(StarredAfter(starred, userId, fetched), StarredKey, userId) == StarredRows(userId, fetched.value)
    ensures OfUser(StarredAfter(starred, userId, fetched), StarredKey, other) == OfUser(starred, StarredKey, other)
  {
    if fetched.Ok? && UniqueBy(StarredRows(userId, fetched.value), StarredKey) {
      ReplacedSelects(starred, StarredKey, userId, StarredRows(userId, fetched.value), other);
    }
  }

  // ---------------------------------------------------------------------
  // Reading back
  // ---------------------------------------------------------------------

  function CreatedKey(j: JobStatus): real {
    j.createdAt as real
  }

  /** The user's jobs of one type, in table order. */
  function JobsOf(jobs: seq<JobStatus>, userId: int, jobType: string): seq<JobStatus> {
    Filter(jobs, (j: JobStatus) => j.userId == userId && j.jobType == jobType)
  }

  /**
   * `ORDER BY created_at DESC LIMIT 1` on a user's jobs of one type:
   * `None` when there is none ("no_sync").
   */
  function LatestJob(jobs: seq<JobStatus>, userId: int, jobType: string): Option<JobStatus> {
    var sorted := SortDesc(JobsOf(jobs, userId, jobType), CreatedKey);
    if sorted == [] then None else Some(sorted[0])
  }

  /**
   * The status shown is the user's sync job created last, the first such in
   * table order when several share that time; there is none exactly when
   * the user has no sync job.
   */
  lemma LatestJobFacts(jobs: seq<JobStatus>, userId: int, jobType: string)
    ensures var mine := JobsOf(jobs, userId, jobType);
      && (LatestJob(jobs, userId, jobType).None? <==> mine == [])
      && (LatestJob(jobs, userId, jobType).Some? ==>
            var j := LatestJob(jobs, userId, jobType).value;
            && j in jobs && j.userId == userId && j.jobType == jobType
            && (forall x :: x in mine ==> x.createdAt <= j.createdAt)
            && WithKey(mine, CreatedKey, CreatedKey(j)) != []
            && j == WithKey(mine, CreatedKey, CreatedKey(j))[0])
  {
    var mine := JobsOf(jobs, userId, jobType);
    var sorted := SortDesc(mine, CreatedKey);
    SortDescFacts(mine, CreatedKey);
    if sorted != [] {
      var j := sorted[0];
      assert j in mine;
      forall x | x in mine ensures x.createdAt <= j.createdAt {
        assert x in sorted;
        var k :| 0 <= k < |sorted| && sorted[k] == x;
        if k > 0 {
          assert CreatedKey(sorted[0]) >= CreatedKey(sorted[k]);
        }
      }
      WithKeyHead(sorted, CreatedKey, CreatedKey(j));
    } else {
      assert |mine| == |sorted|;
    }
  }

  /** The first element with the first element's key heads the selection by that key. */
  lemma WithKeyHead<T>(s: seq<T>, key: T -> real, k: real)
    requires s != [] && key(s[0]) == k
    ensures WithKey(s, key, k) != [] && WithKey(s, key, k)[0] == s[0]
  {
  }

  /** One entry of `GET /starred`: the row with its topics decoded, an empty column giving `[]`. */
  datatype StarredItem = StarredItem(
    githubRepoId: int, fullName: string, description: Option<string>, topics: seq<string>,
    language: Option<string>, starsCount: Option<int>)

  function Item(row: StarredRepo): StarredItem {
    StarredItem(row.githubRepoId, row.fullName, row.description, DecodeTopics(row.topics), row.language, row.starsCount)
  }

  /** The rows `GET /starred?limit=&offset=` reads: the user's, by stars (NULLs last), then the window. */
  function PageRows(starred: seq<StarredRepo>, userId: int, limit: int, offset: int): seq<StarredRepo> {
    LimitOffset(ByStarsDesc(OfUser(starred, StarredKey, userId)), limit, offset)
  }

  /** `GET /starred?limit=&offset=`: one entry per row read. */
  function StarredPage(starred: seq<StarredRepo>, userId: int, limit: int, offset: int): (page: seq<StarredItem>)
    ensures var rows := PageRows(starred, userId, limit, offset);
      |page| == |rows| && forall k :: 0 <= k < |rows| ==> page[k] == Item(rows[k])
  {
    var rows := PageRows(starred, userId, limit, offset);
    seq(|rows|, k requires 0 <= k < |rows| => Item(rows[k]))
  }

  /**
   * A page holds at most `limit` of the user's repositories, most stars
   * first with unknown counts last.
   */
  lemma StarredPageFacts(starred: seq<StarredRepo>, userId: int, limit: int, offset: int)
    ensures var rows := PageRows(starred, userId, limit, offset);
      && (limit >= 0 ==> |rows| <= limit)
      && (forall k :: 0 <= k < |rows| ==> rows[k] in starred && rows[k].userId == userId)
      && (forall i, j :: 0 <= i < j < |rows| && rows[j].starsCount.Some? ==>
            rows[i].starsCount.Some? && rows[i].starsCount.value >= rows[j].starsCount.value)
  {
    var mine := OfUser(starred, StarredKey, userId);
    var sorted := ByStarsDesc(mine);
    ByStarsDescFacts(mine);
    var rows := LimitOffset(sorted, limit, offset);
    forall k | 0 <= k < |rows| ensures rows[k] in starred && rows[k].userId == userId {
      assert rows[k] in multiset(sorted);
      assert rows[k] in mine;
    }
  }

  /**
   * Topics round-trip through a sync: what `GET /starred` shows for a synced
   * repository is the topic list the API gave, or `[]` when it gave none.
   */
  lemma TopicsRoundTrip(userId: int, repo: GhRepo)
    ensures Item(StarredRow(userId, repo)).topics == TopicsOrEmpty(repo)
    ensures Item(StarredRow(userId, repo)).githubRepoId == repo.id
    ensures Item(StarredRow(userId, repo)).starsCount == repo.stargazersCount
  {
  }
}
