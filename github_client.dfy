/**
 * The GitHub API client (`GitHubClient`): the rate-limit rule of its request
 * helper, the paginated reads of a user's stars, the sampled stargazer read,
 * and the read-through cache in front of the last two.
 *
 * The HTTP exchange itself is the parameter `api`: for each request the
 * client can make it gives the outcome after the transport's retries — the
 * decoded list, an HTTP status error (`httpx.HTTPStatusError`), or any other
 * failure.  A stargazer list is given as the stargazers' logins.
 */
module GithubClient {
  import opened Wrappers
  import opened Records

  /** The outcome of one API request. */
  datatype Fetch<T> = Fetched(items: seq<T>) | HttpStatusError(message: string) | RequestError(message: string)

  /**
   * The API as the client sees it, for a given token:
   * `ownStarred(token, page)` answers `GET /user/starred?per_page=100&page=page`,
   * `stargazers(token, owner, repo)` answers `GET /repos/owner/repo/stargazers?per_page=50`,
   * `userStarred(token, login, page)` answers `GET /users/login/starred?per_page=100&page=page`.
   */
  datatype GitHubApi = GitHubApi(
    ownStarred: (string, nat) -> Fetch<GhRepo>,
    stargazers: (string, string, string) -> Fetch<string>,
    userStarred: (string, string, nat) -> Fetch<GhRepo>)

  // ---------------------------------------------------------------- rate limit

  /** What the request helper does with a response. */
  datatype RequestStep = SleepThenRetry(seconds: real) | RaiseStatus | ReturnResponse

  /** `response.raise_for_status()` passes only 2xx responses. */
  predicate IsSuccess(status: int) {
    200 <= status < 300
  }

  /** The longest rate-limit wait the helper sleeps through, in seconds. */
  const MaxRateLimitWait: real := 3600.0

  /** Seconds to wait for a rate-limit reset: the time left until `reset`, never negative, plus one. */
  function RateLimitWait(reset: int, now: real): (w: real)
    ensures w >= 1.0
    ensures reset as real <= now ==> w == 1.0
    ensures reset as real > now ==> now + w == reset as real + 1.0
  {
    (if reset as real - now > 0.0 then reset as real - now else 0.0) + 1.0
  }

  /**
   * The helper's decision for a response with status `status` and the
   * `X-RateLimit-Remaining` / `X-RateLimit-Reset` headers (a missing header
   * reads as 0), at clock time `now`.
   */
  function RequestAction(status: int, remaining: Option<int>, reset: Option<int>, now: real): (r: RequestStep)
    ensures r.SleepThenRetry? <==>
      status == 403 && remaining.GetOr(0) == 0 && RateLimitWait(reset.GetOr(0), now) < MaxRateLimitWait
    ensures r.SleepThenRetry? ==> r.seconds == RateLimitWait(reset.GetOr(0), now)
    ensures r.ReturnResponse? <==> !r.SleepThenRetry? && IsSuccess(status)
    ensures r.RaiseStatus? <==> !r.SleepThenRetry? && !IsSuccess(status)
  {
    if status == 403 && remaining.GetOr(0) == 0 && RateLimitWait(reset.GetOr(0), now) < MaxRateLimitWait then
      SleepThenRetry(RateLimitWait(reset.GetOr(0), now))
    else if IsSuccess(status) then ReturnResponse
    else RaiseStatus
  }

  /** A sleep before a retry lasts at least one second and less than an hour. */
  lemma SleepIsBounded(status: int, remaining: Option<int>, reset: Option<int>, now: real)
    ensures var r := RequestAction(status, remaining, reset, now);
      r.SleepThenRetry? ==> 1.0 <= r.seconds < MaxRateLimitWait
  {
  }

  /** A 403 that still has quota left, or whose reset is an hour or more away, is raised. */
  lemma ForbiddenIsRaised(remaining: Option<int>, reset: Option<int>, now: real)
    requires remaining.GetOr(0) != 0 || RateLimitWait(reset.GetOr(0), now) >= MaxRateLimitWait
    ensures RequestAction(403, remaining, reset, now) == RaiseStatus
  {
  }

  // ---------------------------------------------------------------- pagination

  /** The page cap of the authenticated user's own stars. */
  const MaxOwnPages: nat := 50

  /** The page cap `gather_candidate_repos` passes for another user's stars. */
  const SimilarUserPages: nat := 2

  /** `items + rest`, when the rest did not fail. */
  function Prepend<T>(items: seq<T>, rest: Result<seq<T>>): (r: Result<seq<T>>)
    ensures items == [] ==> r == rest
  {
    match rest
    case Ok(v) => assert [] + v == v; Ok(items + v)
    case Err(e) => Err(e)
  }

  lemma PrependPrepend<T>(a: seq<T>, b: seq<T>, rest: Result<seq<T>>)
    ensures Prepend(a, Prepend(b, rest)) == Prepend(a + b, rest)
  {
    if rest.Ok? {
      assert a + (b + rest.value) == (a + b) + rest.value;
    }
  }

  /**
   * Pages `page`, `page + 1`, ... up to `last`, concatenated in order and
   * stopping at the first empty page.  An HTTP status error stops the
   * collection, keeping what was read, when `keepOnHttpError`; otherwise it
   * fails the whole read, as any other failure does.
   */
  function CollectPages<T>(pages: nat -> Fetch<T>, page: nat, last: nat, keepOnHttpError: bool)
    : Result<seq<T>>
    decreases last + 1 - page
  {
    if page > last then Ok([])
    else
      match pages(page)
      case Fetched(items) =>
        if items == [] then Ok([]) else Prepend(items, CollectPages(pages, page + 1, last, keepOnHttpError))
      case HttpStatusError(e) => if keepOnHttpError then Ok([]) else Err(e)
      case RequestError(e) => Err(e)
  }

  /** Pagination ends at `p`: an empty page, or an HTTP error that is kept. */
  predicate EndsAt<T>(pages: nat -> Fetch<T>, p: nat, keepOnHttpError: bool) {
    pages(p) == Fetched([]) || (keepOnHttpError && pages(p).HttpStatusError?)
  }

  /**
   * The collection reads no page past `last`, nor past a page where it ends:
   * two page sources that agree up to there give the same result.
   */
  lemma {:induction false} CollectPagesReadsOnly<T>(
    pages: nat -> Fetch<T>, other: nat -> Fetch<T>, page: nat, last: nat, stop: nat, keepOnHttpError: bool)
    requires stop >= last || (page <= stop && EndsAt(pages, stop, keepOnHttpError))
    requires forall q :: page <= q <= last && q <= stop ==> pages(q) == other(q)
    ensures CollectPages(pages, page, last, keepOnHttpError) == CollectPages(other, page, last, keepOnHttpError)
    decreases last + 1 - page
  {
    if page <= last && page != stop && pages(page).Fetched? && pages(page).items != [] {
      CollectPagesReadsOnly(pages, other, page + 1, last, stop, keepOnHttpError);
    }
  }

  /** Every collected repository comes from a page in `[page, last]`. */
  lemma {:induction false} CollectPagesFromPages<T>(pages: nat -> Fetch<T>, page: nat, last: nat, keepOnHttpError: bool)
    ensures var r := CollectPages(pages, page, last, keepOnHttpError);
      r.Ok? ==> forall x :: x in r.value ==>
        exists q :: page <= q <= last && pages(q).Fetched? && x in pages(q).items
    decreases last + 1 - page
  {
    if page <= last && pages(page).Fetched? && pages(page).items != [] {
      CollectPagesFromPages(pages, page + 1, last, keepOnHttpError);
    }
  }

  /** When every page up to `last` is full, all of them are read, first to last. */
  lemma {:induction false} CollectFullPages<T>(pages: nat -> Fetch<T>, page: nat, last: nat, keepOnHttpError: bool)
    requires forall q :: page <= q <= last ==> pages(q).Fetched? && pages(q).items != []
    ensures CollectPages(pages, page, last, keepOnHttpError).Ok?
    ensures page <= last ==> (CollectPages(pages, page, last, keepOnHttpError)
      == Prepend(pages(page).items, CollectPages(pages, page + 1, last, keepOnHttpError)))
    ensures page <= last ==> (|CollectPages(pages, page, last, keepOnHttpError).value|
      >= last + 1 - page)
    decreases last + 1 - page
  {
    if page <= last {
      CollectFullPages(pages, page + 1, last, keepOnHttpError);
    }
  }

  // ---------------------------------------------------------------- cache

  /** The Redis store the clients share: JSON-encoded values under string keys. */
  class RedisCache {
    var stargazers: map<string, seq<string>>
    var userStarred: map<string, seq<GhRepo>>

    constructor()
      ensures stargazers == map[] && userStarred == map[]
    {
      stargazers, userStarred := map[], map[];
    }
  }

  function StargazersKey(owner: string, repo: string): string {
    "stargazers:" + owner + "/" + repo
  }

  function UserStarredKey(login: string): string {
    "user_starred:" + login
  }

  /** Distinct logins are cached under distinct keys. */
  lemma UserStarredKeyInjective(a: string, b: string)
    requires a != b
    ensures UserStarredKey(a) != UserStarredKey(b)
  {
    var n := |"user_starred:"|;
    assert UserStarredKey(a)[n..] == a;
    assert UserStarredKey(b)[n..] == b;
  }

  /** `_get_cached(key)`: nothing without a cache or for a missing key, else the stored value. */
  function CachedValue<T>(cache: Option<map<string, seq<T>>>, key: string): (r: Option<seq<T>>)
    ensures cache.None? ==> r.None?
    ensures cache.Some? ==> (r.Some? <==> key in cache.value)
    ensures r.Some? ==> r.value == cache.value[key]
  {
    if cache.Some? && key in cache.value then Some(cache.value[key]) else None
  }

  /** `_set_cached(key, value)`: stores the value, or does nothing without a cache. */
  function CacheWrite<T>(cache: Option<map<string, seq<T>>>, key: string, value: seq<T>)
    : (r: Option<map<string, seq<T>>>)
    ensures cache.None? <==> r.None?
    ensures r.Some? ==> r.value.Keys == cache.value.Keys + {key}
  {
    if cache.Some? then Some(cache.value[key := value]) else None
  }

  /** A write is seen by the next read of its key, and by no read of another key. */
  lemma CacheReadAfterWrite<T>(cache: Option<map<string, seq<T>>>, key: string, value: seq<T>, other: string)
    ensures CachedValue(CacheWrite(cache, key, value), key) == if cache.Some? then Some(value) else None
    ensures other != key ==> CachedValue(CacheWrite(cache, key, value), other) == CachedValue(cache, other)
  {
  }

  /** The callers treat only a non-empty cached list as a hit. */
  predicate IsHit<T>(cached: Option<seq<T>>) {
    cached.Some? && cached.value != []
  }

  /** The stargazers `get_repo_stargazers` returns, given the cache and the API's answer. */
  function StargazersResult(cache: Option<map<string, seq<string>>>, key: string, fetch: Fetch<string>)
    : (r: Result<seq<string>>)
    ensures IsHit(CachedValue(cache, key)) ==> r == Ok(CachedValue(cache, key).value)
    ensures !IsHit(CachedValue(cache, key)) && fetch.Fetched? ==> r == Ok(fetch.items)
    ensures !IsHit(CachedValue(cache, key)) && fetch.HttpStatusError? ==> r == Ok([])
    ensures r.Err? <==> !IsHit(CachedValue(cache, key)) && fetch.RequestError?
  {
    var cached := CachedValue(cache, key);
    if IsHit(cached) then Ok(cached.value)
    else
      match fetch
      case Fetched(items) => Ok(items)
      case HttpStatusError(_) => Ok([])
      case RequestError(e) => Err(e)
  }

  /** The stargazer cache after `get_repo_stargazers`: only a fetched list is written. */
  function StargazersCacheAfter(cache: Option<map<string, seq<string>>>, key: string, fetch: Fetch<string>)
    : Option<map<string, seq<string>>>
  {
    if !IsHit(CachedValue(cache, key)) && fetch.Fetched? then CacheWrite(cache, key, fetch.items) else cache
  }

  /**
   * Read-through: after a fetched non-empty list is cached, the next read of
   * the same repository returns it whatever the API would answer.
   */
  lemma StargazersReadThrough(cache: Option<map<string, seq<string>>>, key: string, fetch: Fetch<string>, later: Fetch<string>)
    requires cache.Some? && !IsHit(CachedValue(cache, key))
    requires fetch.Fetched? && fetch.items != []
    ensures StargazersResult(StargazersCacheAfter(cache, key, fetch), key, later) == StargazersResult(cache, key, fetch)
  {
  }

  /** The repositories `get_user_starred` returns, given the cache and the API's pages. */
  function UserStarredResult(cache: Option<map<string, seq<GhRepo>>>, key: string, pages: nat -> Fetch<GhRepo>, maxPages: nat)
    : (r: Result<seq<GhRepo>>)
    ensures IsHit(CachedValue(cache, key)) ==> r == Ok(CachedValue(cache, key).value)
    ensures !IsHit(CachedValue(cache, key)) ==> r == CollectPages(pages, 1, maxPages, true)
  {
    var cached := CachedValue(cache, key);
    if IsHit(cached) then Ok(cached.value) else CollectPages(pages, 1, maxPages, true)
  }

  /** The cache after `get_user_starred`: on a miss, whatever was collected is written, even a partial or empty list. */
  function UserStarredCacheAfter(cache: Option<map<string, seq<GhRepo>>>, key: string, pages: nat -> Fetch<GhRepo>, maxPages: nat)
    : Option<map<string, seq<GhRepo>>>
  {
    var r := CollectPages(pages, 1, maxPages, true);
    if !IsHit(CachedValue(cache, key)) && r.Ok? then CacheWrite(cache, key, r.value) else cache
  }

  // ---------------------------------------------------------------- retries as written

  /**
   * The text of tenacity's `RetryError`: `_request` retries every exception
   * and, after its third attempt, raises this instead of the last error.
   */
  const RetryErrorText: string := "RetryError[HTTPStatusError]"

  /**
   * `get_repo_stargazers` as written: the status error never reaches its
   * `except httpx.HTTPStatusError`, because `_request` has already turned it
   * into a `RetryError`, which propagates.
   */
  function StargazersResultAsWritten(cache: Option<map<string, seq<string>>>, key: string, fetch: Fetch<string>)
    : Result<seq<string>>
  {
    var cached := CachedValue(cache, key);
    if IsHit(cached) then Ok(cached.value)
    else
      match fetch
      case Fetched(items) => Ok(items)
      case HttpStatusError(_) => Err(RetryErrorText)
      case RequestError(e) => Err(e)
  }

  /** `get_user_starred` as written: a status error on any page propagates instead of ending the pages. */
  function UserStarredResultAsWritten(cache: Option<map<string, seq<GhRepo>>>, key: string,
                                      pages: nat -> Fetch<GhRepo>, maxPages: nat): Result<seq<GhRepo>>
  {
    var cached := CachedValue(cache, key);
    if IsHit(cached) then Ok(cached.value) else CollectPages(pages, 1, maxPages, false)
  }

  /**
   * On a cache miss, a repository whose stargazer list answers with an HTTP
   * error makes `get_repo_stargazers` as written raise, where the handler
   * meant it to give an empty list.
   */
  lemma StargazerStatusErrorEscapes(cache: Option<map<string, seq<string>>>, key: string, fetch: Fetch<string>)
    requires !IsHit(CachedValue(cache, key)) && fetch.HttpStatusError?
    ensures StargazersResultAsWritten(cache, key, fetch) == Err(RetryErrorText)
    ensures StargazersResult(cache, key, fetch) == Ok([])
  {
  }

  /**
   * Pages up to `p` are full and page `p` answers with an HTTP error: the
   * collection keeps what it read exactly when status errors are kept.
   */
  lemma {:induction false} CollectPagesStatusError<T>(pages: nat -> Fetch<T>, page: nat, last: nat, p: nat, keepOnHttpError: bool)
    requires page <= p <= last && pages(p).HttpStatusError?
    requires forall q :: page <= q < p ==> pages(q).Fetched? && pages(q).items != []
    ensures CollectPages(pages, page, last, keepOnHttpError).Ok? <==> keepOnHttpError
    decreases p - page
  {
    if page < p {
      CollectPagesStatusError(pages, page + 1, last, p, keepOnHttpError);
    }
  }

  /**
   * On a cache miss, an HTTP error on one of a user's starred pages makes
   * `get_user_starred` as written raise, where the handler meant it to
   * return the pages read so far.
   */
  lemma UserStarredStatusErrorEscapes(cache: Option<map<string, seq<GhRepo>>>, key: string,
                                      pages: nat -> Fetch<GhRepo>, maxPages: nat, p: nat)
    requires !IsHit(CachedValue(cache, key))
    requires 1 <= p <= maxPages && pages(p).HttpStatusError?
    requires forall q :: 1 <= q < p ==> pages(q).Fetched? && pages(q).items != []
    ensures UserStarredResultAsWritten(cache, key, pages, maxPages).Err?
    ensures UserStarredResult(cache, key, pages, maxPages).Ok?
  {
    CollectPagesStatusError(pages, 1, maxPages, p, false);
    CollectPagesStatusError(pages, 1, maxPages, p, true);
  }

  /** A user's starred pages, as a function of the page number. */
  function UserPages(api: GitHubApi, token: string, login: string): nat -> Fetch<GhRepo> {
    (p: nat) => api.userStarred(token, login, p)
  }

  /** The authenticated user's starred pages, as a function of the page number. */
  function OwnPages(api: GitHubApi, token: string): nat -> Fetch<GhRepo> {
    (p: nat) => api.ownStarred(token, p)
  }

  /** The cache object, if there is one, as a set for frames. */
  function Present(redis: RedisCache?): set<RedisCache> {
    if redis == null then {} else {redis}
  }

  /** A client for one access token, with the shared cache when Redis answered (`null` otherwise). */
  class GitHubClient {
    const accessToken: string
    const redis: RedisCache?
    const api: GitHubApi

    constructor(accessToken: string, redis: RedisCache?, api: GitHubApi)
      ensures this.accessToken == accessToken && this.redis == redis && this.api == api
    {
      this.accessToken := accessToken;
      this.redis := redis;
      this.api := api;
    }

    function StargazerCache(): Option<map<string, seq<string>>>
      reads redis
    {
      if redis == null then None else Some(redis.stargazers)
    }

    function UserStarredCache(): Option<map<string, seq<GhRepo>>>
      reads redis
    {
      if redis == null then None else Some(redis.userStarred)
    }

    /** `get_starred_repos`: page after page until an empty one, at most 50 pages; any failure propagates. */
    method GetStarredRepos() returns (r: Result<seq<GhRepo>>)
      ensures r == CollectPages(OwnPages(api, accessToken), 1, MaxOwnPages, false)
    {
      var pages := OwnPages(api, accessToken);
      var all: seq<GhRepo> := [];
      var page: nat := 1;
      while page <= MaxOwnPages
        invariant 1 <= page <= MaxOwnPages + 1
        invariant Prepend(all, CollectPages(pages, page, MaxOwnPages, false))
          == CollectPages(pages, 1, MaxOwnPages, false)
        decreases MaxOwnPages + 1 - page
      {
        match pages(page)
        case Fetched(repos) =>
          if repos == [] {
            break;
          }
          PrependPrepend(all, repos, CollectPages(pages, page + 1, MaxOwnPages, false));
          all := all + repos;
          page := page + 1;
        case HttpStatusError(e) =>
          return Err(e);
        case RequestError(e) =>
          return Err(e);
      }
      assert all + [] == all;
      r := Ok(all);
    }

    /**
     * `get_repo_stargazers(owner, repo)`: a cached non-empty list is returned
     * without a request; otherwise the API is asked, a fetched list is cached,
     * and an HTTP status error yields an empty list that is not cached.
     */
    method GetRepoStargazers(owner: string, repo: string) returns (r: Result<seq<string>>)
      modifies Present(redis)`stargazers
      ensures r == StargazersResult(old(StargazerCache()), StargazersKey(owner, repo), api.stargazers(accessToken, owner, repo))
      ensures StargazerCache()
        == StargazersCacheAfter(old(StargazerCache()), StargazersKey(owner, repo), api.stargazers(accessToken, owner, repo))
    {
      var key := StargazersKey(owner, repo);
      var cached := CachedValue(StargazerCache(), key);
      if IsHit(cached) {
        return Ok(cached.value);
      }
      match api.stargazers(accessToken, owner, repo)
      case Fetched(stargazers) =>
        if redis != null {
          redis.stargazers := redis.stargazers[key := stargazers];
        }
        r := Ok(stargazers);
      case HttpStatusError(_) =>
        r := Ok([]);
      case RequestError(e) =>
        r := Err(e);
    }

    /**
     * `get_user_starred(login, max_pages)`: a cached non-empty list is
     * returned without a request; otherwise up to `maxPages` pages are read,
     * stopping at an empty page or an HTTP status error, and whatever was
     * collected is cached.
     */
    method GetUserStarred(login: string, maxPages: nat) returns (r: Result<seq<GhRepo>>)
      modifies Present(redis)`userStarred
      ensures r == UserStarredResult(old(UserStarredCache()), UserStarredKey(login), UserPages(api, accessToken, login), maxPages)
      ensures UserStarredCache()
        == UserStarredCacheAfter(old(UserStarredCache()), UserStarredKey(login), UserPages(api, accessToken, login), maxPages)
    {
      var key := UserStarredKey(login);
      var cached := CachedValue(UserStarredCache(), key);
      if IsHit(cached) {
        return Ok(cached.value);
      }
      var pages := UserPages(api, accessToken, login);
      var all: seq<GhRepo> := [];
      var page: nat := 1;
      while page <= maxPages
        invariant 1 <= page <= maxPages + 1 || (page == 1 && maxPages == 0)
        invariant Prepend(all, CollectPages(pages, page, maxPages, true)) == CollectPages(pages, 1, maxPages, true)
        invariant redis != null ==> redis.userStarred == old(redis.userStarred)
        decreases maxPages + 1 - page
      {
        match pages(page)
        case Fetched(repos) =>
          if repos == [] {
            break;
          }
          PrependPrepend(all, repos, CollectPages(pages, page + 1, maxPages, true));
          all := all + repos;
          page := page + 1;
        case HttpStatusError(_) =>
          break;
        case RequestError(e) =>
          return Err(e);
      }
      if redis != null {
        redis.userStarred := redis.userStarred[key := all];
      }
      assert all + [] == all;
      r := Ok(all);
    }
  }
}
