/**
 * The SQLite database as the pipeline sees it: one sequence of rows per table,
 * in insertion order, plus the users.  A commit that would break a uniqueness
 * constraint fails as a whole and leaves every table as it was (SQLite raises
 * `IntegrityError` and the session rolls back).
 *
 * Row order stands for the order SQLite returns rows in; where a query orders
 * by a column, rows with equal values keep that order, and NULLs sort last.
 */
module Tables {
  import opened Wrappers
  import opened Records
  import Seqs

  /** No two rows of `s` share a key. */
  predicate UniqueBy<T, K(==)>(s: seq<T>, key: T -> (int, K)) {
    forall i, j :: 0 <= i < j < |s| ==> key(s[i]) != key(s[j])
  }

  /** `WHERE user_id = u`: the rows owned by `u`, in table order. */
  function OfUser<T, K>(table: seq<T>, key: T -> (int, K), u: int): (r: seq<T>)
    ensures |r| <= |table|
    ensures forall k :: 0 <= k < |r| ==> key(r[k]).0 == u
    ensures forall k :: 0 <= k < |table| && key(table[k]).0 == u ==> table[k] in r
    ensures forall x :: x in r ==> x in table
  {
    if table == [] then []
    else (if key(table[0]).0 == u then [table[0]] else []) + OfUser(table[1..], key, u)
  }

  /** What `DELETE ... WHERE user_id = u` leaves: the rows of every other user, in table order. */
  function WithoutUser<T, K>(table: seq<T>, key: T -> (int, K), u: int): (r: seq<T>)
    ensures |r| <= |table|
    ensures forall k :: 0 <= k < |r| ==> key(r[k]).0 != u
    ensures forall k :: 0 <= k < |table| && key(table[k]).0 != u ==> table[k] in r
    ensures forall x :: x in r ==> x in table
  {
    if table == [] then []
    else (if key(table[0]).0 != u then [table[0]] else []) + WithoutUser(table[1..], key, u)
  }

  /** A user's rows replaced wholesale: every other user's rows, then the new ones. */
  function Replaced<T, K>(table: seq<T>, key: T -> (int, K), u: int, rows: seq<T>): (r: seq<T>)
    ensures OfUser(r, key, u) == OfUser(rows, key, u)
  {
    OfUserAppend(WithoutUser(table, key, u), rows, key, u);
    OfUserOfOthers(WithoutUser(table, key, u), key, u);
    WithoutUser(table, key, u) + rows
  }

  lemma {:induction false} OfUserAppend<T, K>(a: seq<T>, b: seq<T>, key: T -> (int, K), u: int)
    ensures OfUser(a + b, key, u) == OfUser(a, key, u) + OfUser(b, key, u)
  {
    if a == [] {
      assert a + b == b;
    } else {
      assert (a + b)[1..] == a[1..] + b;
      OfUserAppend(a[1..], b, key, u);
    }
  }

  lemma {:induction false} OfUserOfOthers<T, K>(a: seq<T>, key: T -> (int, K), u: int)
    requires forall k :: 0 <= k < |a| ==> key(a[k]).0 != u
    ensures OfUser(a, key, u) == []
  {
    if a != [] {
      OfUserOfOthers(a[1..], key, u);
    }
  }

  lemma {:induction false} WithoutUserKeepsUnique<T, K>(table: seq<T>, key: T -> (int, K), u: int)
    requires UniqueBy(table, key)
    ensures UniqueBy(WithoutUser(table, key, u), key)
  {
    if table != [] {
      WithoutUserKeepsUnique(table[1..], key, u);
      var rest := WithoutUser(table[1..], key, u);
      forall k | 0 <= k < |rest| ensures key(table[0]) != key(rest[k]) {
        assert rest[k] in rest;
        var m :| 0 <= m < |table[1..]| && table[1..][m] == rest[k];
        assert table[m + 1] == rest[k];
      }
    }
  }

  lemma {:induction false} OfUserKeepsUnique<T, K>(table: seq<T>, key: T -> (int, K), u: int)
    requires UniqueBy(table, key)
    ensures UniqueBy(OfUser(table, key, u), key)
  {
    if table != [] {
      OfUserKeepsUnique(table[1..], key, u);
      var rest := OfUser(table[1..], key, u);
      forall k | 0 <= k < |rest| ensures key(table[0]) != key(rest[k]) {
        assert rest[k] in rest;
        var m :| 0 <= m < |table[1..]| && table[1..][m] == rest[k];
        assert table[m + 1] == rest[k];
      }
    }
  }

  /** A table of one user's rows is its own selection for that user. */
  lemma {:induction false} OfUserOwn<T, K>(a: seq<T>, key: T -> (int, K), u: int)
    requires forall k :: 0 <= k < |a| ==> key(a[k]).0 == u
    ensures OfUser(a, key, u) == a
  {
    if a != [] {
      OfUserOwn(a[1..], key, u);
    }
  }

  /** Dropping one user's rows leaves every other user's rows as they were. */
  lemma {:induction false} WithoutUserKeepsOthers<T, K>(table: seq<T>, key: T -> (int, K), u: int, v: int)
    requires u != v
    ensures OfUser(WithoutUser(table, key, u), key, v) == OfUser(table, key, v)
  {
    if table != [] {
      WithoutUserKeepsOthers(table[1..], key, u, v);
      var head: seq<T> := if key(table[0]).0 != u then [table[0]] else [];
      OfUserAppend(head, WithoutUser(table[1..], key, u), key, v);
    }
  }

  /**
   * Replacing one user's rows gives that user exactly the new rows and
   * leaves every other user's rows as they were.
   */
  lemma ReplacedSelects<T, K>(table: seq<T>, key: T -> (int, K), u: int, rows: seq<T>, v: int)
    requires forall k :: 0 <= k < |rows| ==> key(rows[k]).0 == u
    requires u != v
    ensures OfUser(Replaced(table, key, u, rows), key, u) == rows
    ensures OfUser(Replaced(table, key, u, rows), key, v) == OfUser(table, key, v)
  {
    OfUserOwn(rows, key, u);
    OfUserAppend(WithoutUser(table, key, u), rows, key, v);
    OfUserOfOthers(rows, key, v);
    WithoutUserKeepsOthers(table, key, u, v);
  }

  /** Distinct rows drawn from a unique table are unique. */
  lemma UniqueBySubset<T, K>(s: seq<T>, t: seq<T>, key: T -> (int, K))
    requires UniqueBy(s, key) && Seqs.Distinct(t)
    requires forall x :: x in t ==> x in s
    ensures UniqueBy(t, key)
  {
    forall i, j | 0 <= i < j < |t| ensures key(t[i]) != key(t[j]) {
      assert t[i] in s && t[j] in s;
      var p :| 0 <= p < |s| && s[p] == t[i];
      var q :| 0 <= q < |s| && s[q] == t[j];
      assert p != q;
    }
  }

  /** Sorting a unique table keeps it unique. */
  lemma SortKeepsUnique<T, K>(s: seq<T>, sortKey: T -> real, key: T -> (int, K))
    requires UniqueBy(s, key)
    ensures UniqueBy(Seqs.SortDesc(s, sortKey), key)
  {
    assert Seqs.Distinct(s);
    Seqs.SortDescDistinct(s, sortKey);
    Seqs.SortDescFacts(s, sortKey);
    var t := Seqs.SortDesc(s, sortKey);
    forall x | x in t ensures x in s {
      assert x in multiset(t);
    }
    UniqueBySubset(s, t, key);
  }

  /**
   * Replacing one user's rows keeps a table unique exactly when the new rows,
   * all owned by that user, are unique among themselves.
   */
  lemma ReplacedUniqueIff<T, K>(table: seq<T>, key: T -> (int, K), u: int, rows: seq<T>)
    requires UniqueBy(table, key)
    requires forall k :: 0 <= k < |rows| ==> key(rows[k]).0 == u
    ensures UniqueBy(Replaced(table, key, u, rows), key) <==> UniqueBy(rows, key)
  {
    var w := WithoutUser(table, key, u);
    var r := w + rows;
    WithoutUserKeepsUnique(table, key, u);
    if UniqueBy(rows, key) {
      forall i, j | 0 <= i < j < |r| ensures key(r[i]) != key(r[j]) {
        if j >= |w| && i < |w| {
          assert key(r[i]).0 != u && key(r[j]).0 == u;
        } else if i >= |w| {
          assert r[i] == rows[i - |w|] && r[j] == rows[j - |w|];
        }
      }
    }
    if UniqueBy(r, key) {
      forall i, j | 0 <= i < j < |rows| ensures key(rows[i]) != key(rows[j]) {
        assert rows[i] == r[i + |w|] && rows[j] == r[j + |w|];
      }
    }
  }

  /** The rows an `OFFSET` skips: a negative offset skips none. */
  function SqlOffset(offset: int): nat {
    if offset < 0 then 0 else offset
  }

  /**
   * `LIMIT limit OFFSET offset` as SQLite reads them: a negative offset
   * counts as zero and a negative limit means no limit.
   */
  function LimitOffset<T>(s: seq<T>, limit: int, offset: int): (r: seq<T>)
    ensures limit >= 0 ==> |r| <= limit
    ensures SqlOffset(offset) <= |s| ==>
      r == (if limit < 0 then s[SqlOffset(offset)..] else Seqs.Take(s[SqlOffset(offset)..], limit))
    ensures offset >= |s| ==> r == []
    ensures forall k :: 0 <= k < |r| ==> SqlOffset(offset) + k < |s| && r[k] == s[SqlOffset(offset) + k]
  {
    var o := SqlOffset(offset);
    if o >= |s| then []
    else if limit < 0 then s[o..]
    else Seqs.Take(s[o..], limit)
  }

  /**
   * The constraints the database enforces on every commit.  Job and
   * recommendation ids are the rows' auto-increment ids: neither table
   * ever loses a row, so a row's id is its position plus one.
   */
  predicate TablesValid(
    starred: seq<StarredRepo>, similar: seq<SimilarUser>, candidates: seq<CandidateRepo>,
    recommendations: seq<Recommendation>, feedback: seq<Feedback>, jobs: seq<JobStatus>)
  {
    && UniqueBy(starred, StarredKey)
    && UniqueBy(similar, SimilarKey)
    && UniqueBy(candidates, CandidateKey)
    && UniqueBy(recommendations, RecommendationKey)
    && UniqueBy(feedback, FeedbackKey)
    && (forall k :: 0 <= k < |recommendations| ==> recommendations[k].id == k + 1)
    && (forall k :: 0 <= k < |jobs| ==> jobs[k].id == k + 1)
  }

  /** The application database. */
  class Database {
    var users: map<int, User>
    var starred: seq<StarredRepo>
    var similar: seq<SimilarUser>
    var candidates: seq<CandidateRepo>
    var recommendations: seq<Recommendation>
    var feedback: seq<Feedback>
    var jobs: seq<JobStatus>

    ghost predicate Valid()
      reads this
    {
      TablesValid(starred, similar, candidates, recommendations, feedback, jobs)
    }

    /** A database holding the given users and nothing else. */
    constructor(users: map<int, User>)
      ensures Valid()
      ensures this.users == users
      ensures starred == [] && similar == [] && candidates == []
      ensures recommendations == [] && feedback == [] && jobs == []
    {
      this.users := users;
      starred, similar, candidates := [], [], [];
      recommendations, feedback, jobs := [], [], [];
    }

    /** The job with auto-increment id `id`. */
    function Job(id: int): JobStatus
      requires Valid() && 1 <= id <= |jobs|
      reads this
    {
      jobs[id - 1]
    }

    /**
     * Insert a job row and commit: the row is created directly in the
     * running state at progress 0, and nothing is ever written as pending.
     */
    method AddJob(userId: int, jobType: string, message: Option<string>, now: int) returns (id: int)
      requires Valid()
      modifies this`jobs
      ensures Valid()
      ensures id == |old(jobs)| + 1
      ensures jobs == old(jobs) + [JobStatus(id, userId, jobType, Running, 0, message, Some(now), None, now)]
    {
      id := |jobs| + 1;
      jobs := jobs + [JobStatus(id, userId, jobType, Running, 0, message, Some(now), None, now)];
    }

    /** `job.progress = progress; job.message = message; commit`. */
    method SetProgress(id: int, progress: int, message: string)
      requires Valid() && 1 <= id <= |jobs|
      modifies this`jobs
      ensures Valid()
      ensures jobs == old(jobs)[id - 1 := old(jobs)[id - 1].(progress := progress, message := Some(message))]
    {
      jobs := jobs[id - 1 := jobs[id - 1].(progress := progress, message := Some(message))];
    }

    /** The success write: status completed, progress 100, completion time set. */
    method Complete(id: int, message: string, now: int)
      requires Valid() && 1 <= id <= |jobs|
      modifies this`jobs
      ensures Valid()
      ensures jobs == old(jobs)[id - 1 := old(jobs)[id - 1].(
        status := Completed, progress := 100, message := Some(message), completedAt := Some(now))]
    {
      jobs := jobs[id - 1 := jobs[id - 1].(
        status := Completed, progress := 100, message := Some(message), completedAt := Some(now))];
    }

    /** The failure write: status failed, `str(e)` as message, completion time set; progress is left alone. */
    method Fail(id: int, message: string, now: int)
      requires Valid() && 1 <= id <= |jobs|
      modifies this`jobs
      ensures Valid()
      ensures jobs == old(jobs)[id - 1 := old(jobs)[id - 1].(
        status := Failed, message := Some(message), completedAt := Some(now))]
    {
      jobs := jobs[id - 1 := jobs[id - 1].(status := Failed, message := Some(message), completedAt := Some(now))];
    }

    /**
     * Delete the user's starred repos, insert `rows` and commit; the commit
     * fails, leaving the table as it was, when two rows share a repository id.
     */
    method ReplaceStarred(userId: int, rows: seq<StarredRepo>) returns (ok: bool)
      requires Valid()
      requires forall k :: 0 <= k < |rows| ==> rows[k].userId == userId
      modifies this`starred
      ensures Valid()
      ensures ok <==> UniqueBy(rows, StarredKey)
      ensures starred == if ok then Replaced(old(starred), StarredKey, userId, rows) else old(starred)
    {
      ReplacedUniqueIff(starred, StarredKey, userId, rows);
      ok := UniqueBy(rows, StarredKey);
      if ok {
        starred := Replaced(starred, StarredKey, userId, rows);
      }
    }

    /** Delete the user's similar users, insert `rows` and commit (under the enforced constraint). */
    method ReplaceSimilar(userId: int, rows: seq<SimilarUser>) returns (ok: bool)
      requires Valid()
      requires forall k :: 0 <= k < |rows| ==> rows[k].userId == userId
      modifies this`similar
      ensures Valid()
      ensures ok <==> UniqueBy(rows, SimilarKey)
      ensures similar == if ok then Replaced(old(similar), SimilarKey, userId, rows) else old(similar)
    {
      ReplacedUniqueIff(similar, SimilarKey, userId, rows);
      ok := UniqueBy(rows, SimilarKey);
      if ok {
        similar := Replaced(similar, SimilarKey, userId, rows);
      }
    }

    /** Delete the user's candidates, insert `rows` and commit. */
    method ReplaceCandidates(userId: int, rows: seq<CandidateRepo>) returns (ok: bool)
      requires Valid()
      requires forall k :: 0 <= k < |rows| ==> rows[k].userId == userId
      modifies this`candidates
      ensures Valid()
      ensures ok <==> UniqueBy(rows, CandidateKey)
      ensures candidates == if ok then Replaced(old(candidates), CandidateKey, userId, rows) else old(candidates)
    {
      ReplacedUniqueIff(candidates, CandidateKey, userId, rows);
      ok := UniqueBy(rows, CandidateKey);
      if ok {
        candidates := Replaced(candidates, CandidateKey, userId, rows);
      }
    }

    /**
     * Add one batch of recommendation rows and commit.  The commit fails,
     * and the session rolls back, when a row repeats the
     * `(user_id, github_repo_id, batch_id)` of another row.
     */
    method AppendRecommendations(rows: seq<Recommendation>) returns (ok: bool)
      requires Valid()
      requires forall k :: 0 <= k < |rows| ==> rows[k].id == |recommendations| + k + 1
      modifies this`recommendations
      ensures Valid()
      ensures ok <==> UniqueBy(old(recommendations) + rows, RecommendationKey)
      ensures recommendations == if ok then old(recommendations) + rows else old(recommendations)
    {
      ok := UniqueBy(recommendations + rows, RecommendationKey);
      if ok {
        recommendations := recommendations + rows;
      }
    }
  }

  predicate HasStars(r: StarredRepo) {
    r.starsCount.Some?
  }

  predicate LacksStars(r: StarredRepo) {
    r.starsCount.None?
  }

  function StarsKey(r: StarredRepo): real {
    r.starsCount.GetOr(0) as real
  }

  /**
   * `ORDER BY stars_count DESC`: rows with a star count from most to fewest
   * stars, ties in table order, then the rows whose count is NULL (SQLite
   * sorts NULL below every value).
   */
  function ByStarsDesc(rows: seq<StarredRepo>): seq<StarredRepo> {
    Seqs.SortDesc(Seqs.Filter(rows, HasStars), StarsKey) + Seqs.Filter(rows, LacksStars)
  }

  /** The ordering is a permutation of the rows, descending by stars, NULLs last. */
  lemma ByStarsDescFacts(rows: seq<StarredRepo>)
    ensures multiset(ByStarsDesc(rows)) == multiset(rows)
    ensures var r := ByStarsDesc(rows);
      forall i, j :: 0 <= i < j < |r| && r[j].starsCount.Some? ==>
        r[i].starsCount.Some? && r[i].starsCount.value >= r[j].starsCount.value
  {
    var counted := Seqs.Filter(rows, HasStars);
    var sorted := Seqs.SortDesc(counted, StarsKey);
    var nulls := Seqs.Filter(rows, LacksStars);
    Seqs.FilterPartition(rows, HasStars, LacksStars);
    Seqs.SortDescFacts(counted, StarsKey);
    var r := sorted + nulls;
    forall i, j | 0 <= i < j < |r| && r[j].starsCount.Some?
      ensures r[i].starsCount.Some? && r[i].starsCount.value >= r[j].starsCount.value
    {
      assert sorted[i] in counted && sorted[j] in counted;
    }
  }
}
